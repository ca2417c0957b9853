# Exercise-bike ride log: verified model of the ride store and the ride form

This project models two pieces of the exercise-bike logger in Dafny and proves
properties of them.

1. The tRPC router `ritRouter` (api/router/rit.ts). It offers five procedures
   over the `rit` table: `getAll`, `get`, `create`, `updateCompletely` and
   `delete`. Each procedure first checks its input against a zod schema. The
   table is the class `RitRouter.RitStore`, a map from id to the five data
   columns (date, duration, distance, calories, resistance). Each procedure is
   a method on that class. Procedure inputs are dynamically typed objects
   (`RitSchema.Value`: missing, a number, a string or a `Date`), so "must be
   present" and "must be an integer" are real checks. A refused input gives the
   list of issues zod reports, one per failing key in schema order, and the
   table is left untouched.
2. The submit logic of the ride form (renderer/src/components/RitForm.tsx),
   written as pure functions:
   - `toDateTimeString`;
   - the choice between the edit validator and the create validator;
   - the edit-mode payload, built field by field with `??`;
   - the create-mode payload, sent only when all five values are truthy;
   - the integer `onChange` rule, where text that does not parse is stored as `""`.

   The payloads are router input objects, so lemmas follow a form submission
   through to the router's validation.

Files: `wrappers.dfy` (Option, Result), `js_text.dfy` (JavaScript white space,
`substring`, `parseInt`), `rit_schema.dfy` (record, input values, zod schemas,
cuid shape, fresh ids), `rit_router.dfy` (the store class), `rit_form.dfy` (the
form logic).

Modelling choices:
- `IsCuid` is zod's `.cuid()` check: `/^c[^\s-]{8,}$/i`, the pattern zod 3
  documents. It is library code, not part of this repository. The pattern has
  no `u` flag, so its length bound counts UTF-16 code units.
- `updateCompletely` and `delete` check the id with that pattern; `get`
  accepts any string id. `updateCompletely` returns no value.
- `create` chooses any cuid-shaped id that is not in the table. The table
  invariant `Valid()` says every stored id is cuid-shaped, so `update` and
  `delete` can always reach a created row (`RitRouter.EveryRowReachable`).
- Prisma's "record to update/delete not found" failure is the explicit result
  `RecordNotFound`.
- The form's two validators (`createRitValidator`, `editRitValidator`) are
  not part of this model. `OnSubmit` takes them as the parameter `accepts`.
- `OnSubmit` is the callback passed to `handleSubmit`. It returns
  `Option<RawInput>`: `None` means it does not call `mutationFn`, `Some(p)`
  means it calls it once with `p`.
- The form's `onSubmit` prop returns `handleSubmit(callback)` without calling
  it (see "## Findings"). `OnSubmitAsWritten` models that handler;
  `HandleSubmit` models the handler as evidently intended, and the payload
  properties below are stated for the callback it runs.

## Model

| member | source | states |
|---|---|---|
| `RitSchema.ValidateGetInput` | api/router/rit.ts:9-13 | `get` accepts exactly the inputs whose `id` is a string, any string, and yields that id; otherwise one issue: Required if missing, InvalidType otherwise |
| `RitSchema.ValidateCreateInput` | api/router/rit.ts:18-26 | `create` accepts exactly the inputs with a valid date and four present integers; the typed record carries exactly those values; a refusal lists the data issues and is never empty |
| `RitSchema.ValidateUpdateInput` | api/router/rit.ts:31-40 | `updateCompletely` accepts exactly a cuid-shaped string id plus all five valid data keys; the result's id is the input id and its data are exactly the input values |
| `RitSchema.ValidateDeleteInput` | api/router/rit.ts:51 | `delete` accepts exactly a cuid-shaped string id and yields it; otherwise the cuid issues |
| `RitSchema.DataIssuesNameFailingFields` | api/router/rit.ts:19-25 | the issues of a refused input name exactly the data keys whose value is missing, mistyped, not an integer or an invalid date |
| `RitSchema.UpdateRequiresEveryField` | api/router/rit.ts:31-40 | leaving out any one of the five data keys makes `updateCompletely` fail with a Required issue for that key: a full replace, never a patch |
| `RitSchema.UpdateIsCreateWithCuid` | api/router/rit.ts:17-40 | the update schema accepts exactly what both the create schema and the delete schema accept, and yields the same id and data |
| `RitSchema.GetIsLaxerThanDelete` | api/router/rit.ts:8-16 | whatever id `delete` accepts, `get` accepts with the same value; the empty string is accepted by `get` and refused by `delete` |
| `RitSchema.CuidCountsCodeUnits` | api/router/rit.ts:33 | zod's cuid length bound counts UTF-16 code units: `c` and four characters above U+FFFF is a cuid, `c` and four letters is not |
| `RitSchema.FreshCuidExists` | api/router/rit.ts:27-29 | for any finite set of taken ids there is a cuid-shaped id outside it, so `create` can always insert |
| `RitRouter.RitStore.GetAll` | api/router/rit.ts:5-7 | returns exactly the records of the table (id with its row) and changes nothing |
| `RitRouter.RitStore.Get` | api/router/rit.ts:8-16 | refuses only a non-string id; otherwise returns the row with that id, or `None` when there is none, and changes nothing |
| `RitRouter.RitStore.Create` | api/router/rit.ts:17-29 | refused input leaves the table as it was; otherwise exactly one row is added, under a cuid-shaped id not in the table before, holding exactly the input values, and that record is returned |
| `RitRouter.RitStore.UpdateCompletely` | api/router/rit.ts:30-49 | refused input, or an id with no row, leaves the table as it was; on success the set of ids is unchanged, the row holds exactly the five new values under its own id, and every other row is unchanged |
| `RitRouter.RitStore.Delete` | api/router/rit.ts:50-54 | a non-cuid id or an id with no row leaves the table as it was; on success it returns the removed record and the table loses exactly that id |
| `RitRouter.EveryRowReachable` | api/router/rit.ts:27-40 | on a table whose ids all came from `create`, every stored id passes `delete`'s id check, and with five valid data values passes `updateCompletely`'s input check under the same id |
| `RitRouter.CrudRoundTrip` | api/router/rit.ts:4-55 | on a new table, the record `create` returns is the one record `getAll` lists and the record `get` finds; after a full update `get` finds the new values under the same id; after `delete` `get` finds nothing |
| `JsText.ParseIntDecimal` | renderer/src/components/RitForm.tsx:147 | `parseInt` reads back the decimal numeral of every integer, followed by any tail that is empty or starts with neither a decimal digit nor `x`/`X` (`0x` switches to radix 16) |
| `JsText.ParseIntNoDigit` | renderer/src/components/RitForm.tsx:147 | `parseInt` of text with no decimal digit is NaN |
| `RitForm.ToDateTimeStringDropsLastEight` | renderer/src/components/RitForm.tsx:16-21 | the result followed by the last 8 characters of the ISO string is the ISO string; shorter strings give `""` |
| `RitForm.ToDateTimeStringOfIsoInstant` | renderer/src/components/RitForm.tsx:16-21 | on a `YYYY-MM-DDTHH:mm:ss.sssZ` string the result is its 16-character prefix, a valid `datetime-local` value |
| `RitForm.ResolverFor` | renderer/src/components/RitForm.tsx:39-41 | the edit validator is used exactly when an existing record is given |
| `RitForm.OnIntChangeReadsNumeral` | renderer/src/components/RitForm.tsx:146-148 | typing the numeral of an integer of magnitude at most `Number.MAX_SAFE_INTEGER`, followed by a tail that is empty or starts with neither a decimal digit nor `x`/`X` (such as `.5`), stores that integer |
| `RitForm.OnIntChangeWithoutDigits` | renderer/src/components/RitForm.tsx:226-228 | text with no decimal digit is stored as the `""` marker |
| `RitForm.EditPayloadUpdatesRecord` | renderer/src/components/RitForm.tsx:50-58 | an edit submit is accepted by `updateCompletely` with the record's id and, per column, the form's value where one was entered (0 included) and the record's value where the field is undefined |
| `RitForm.UntouchedEditReproducesRecord` | renderer/src/components/RitForm.tsx:53-57 | an untouched edit form sends exactly the existing record |
| `RitForm.OnSubmit` | renderer/src/components/RitForm.tsx:48-76 | the callback calls the mutation only when the chosen validator accepts, and in edit mode exactly then; the id sent is the record's in edit mode and absent in create mode |
| `RitForm.HandleSubmit` | renderer/src/components/RitForm.tsx:47-48 | the intended handler always prevents the browser's submission and calls the mutation only on an accepted form, in edit mode exactly then |
| `RitForm.OnSubmitAsWritten` | renderer/src/components/RitForm.tsx:47-48 | the handler as written never calls the mutation and never prevents the browser's submission |
| `RitForm.SubmitHandlerNotInvoked` | renderer/src/components/RitForm.tsx:47-58 | on an accepted, untouched edit form of a stored ride the handler as written sends nothing, while the intended one sends a payload `updateCompletely` accepts as exactly that ride |
| `RitForm.EditEmptyFieldRefused` | renderer/src/components/RitForm.tsx:53-57 | an integer field emptied in edit mode is sent as `""` instead of falling back to the record, and `updateCompletely` refuses it |
| `RitForm.CreateBlockedByFalsyField` | renderer/src/components/RitForm.tsx:60-66 | in create mode a `0`, `""` or undefined value in any field means the callback does not call the mutation |
| `RitForm.CreatePayloadRenamesFields` | renderer/src/components/RitForm.tsx:67-73 | a create submit carries no id and maps startTijd, duur, afstand, calorie and weerstand to date, duration, distance, calories and resistance; `create` accepts it exactly when the date is valid and the rest are integers, and then receives exactly those values |
| `RitForm.TypedCreateForm` | renderer/src/components/RitForm.tsx:59-75 | typing the numerals of nonzero integers of magnitude at most `Number.MAX_SAFE_INTEGER` into a new form with a valid start time gives a create payload that `create` accepts with exactly those values; typing `0` into any field gives no payload |

## Left out

- CSV export (`makeCSV`), CSV import (`loadCSV`) and bulk delete (`deleteAll`): the renderer calls them, but their implementations are not part of this model.
- The kilometre-to-millimetre conversion of the distance input (`Math.floor(km * 1000)`, `value / 1000`): it is floating-point arithmetic. The form's `afstand` value is taken as the integer number of millimetres it produces.
- Building a `Date` from `valueAsNumber`, and `Date.prototype.toISOString`: these depend on time zones and library behaviour. `RitForm.ToDateTimeString` takes the ISO string as given.
- The Prisma engine and cuid generation. The table is a map, and the new id is an unspecified choice among unused cuid-shaped ids. Persistence failures such as a lost connection are not modelled.
- `RitSchema.IsCuid`: follows zod 3's documented cuid pattern, because zod's own source is not part of this repository.
- `createRitValidator` and `editRitValidator`: they are not part of this model. `RitForm.OnSubmit` takes their verdict as the parameter `accepts`, and the callback's form data is what they pass through.
- `RitRouter.RitStore.GetAll`: returns the rows as a set, so it does not model the order of the array Prisma returns.
- `JsText.ParseInt`: returns the exact integer of the digits read. JavaScript's `parseInt` returns a double, which rounds integers beyond 2^53 and gives `Infinity` for very long numerals; this is not modelled, so `JsText.ParseIntDecimal` holds of the model for every integer but agrees with JavaScript only up to `Number.MAX_SAFE_INTEGER`.
- `RitForm.OnIntChangeReadsNumeral`: stated only for integers of magnitude at most `Number.MAX_SAFE_INTEGER`, because beyond it the form stores a rounded double (see `JsText.ParseInt`).
- `RitForm.OnIntChangeOfNumeral`: the same bound, for the same reason.
- `RitForm.TypedCreateForm`: the same bound on the three fields typed as text, for the same reason.
- `RitSchema.Value`: numbers are reals. zod's rejection of NaN and Infinity is not modelled, and `-0` is the same as `0`.
- zod's issue messages and paths are left out. Each issue is reduced to the key and a code.
- All UI markup and react-hook-form field state. This includes the displayed `value` expressions (`field.value ?? data?.duration ?? ""` and the like) and `isSubmitting`.
- Admin.tsx alerts, routing (main.tsx), the error page and the greeting procedure (api/router/index.ts): they are UI or framework plumbing.
- Async/await and the tRPC transport: each call is modelled as one sequential step.

## Findings

| source | as written | input that shows it | evidently intended | confidence | as-written member | corrected member |
|---|---|---|---|---|---|---|
| renderer/src/components/RitForm.tsx:47-48 | the form's `onSubmit` handler returns `handleSubmit(callback)` without calling it, so the callback never runs, `mutationFn` is never called and the browser's own submission is not prevented | pressing save on an untouched edit form of a stored ride whose values the edit validator accepts | `onSubmit={handleSubmit(callback)}`: prevent the browser's submission, validate, and call the callback | high; not executed | `RitForm.OnSubmitAsWritten`, `RitForm.SubmitHandlerNotInvoked` | `RitForm.HandleSubmit` |
