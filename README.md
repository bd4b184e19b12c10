# Ecoleta registration page — a Dafny model

Ecoleta is a front-end for registering waste-collection points. Its one piece of real
logic is the registration page (`src/pages/Register/index.tsx`): a form whose state lives
in React `useState` fields and whose handlers load option lists, toggle the selected
collection items, validate the record with a Yup schema, turn validation failures into
per-field error messages, and post a multipart body to the registry.

This project models that page outside React:

- `wrappers.dfy` — `Option`.
- `decimal.dfy` (module `Decimal`) — `String(n)` for integer values and `ids.join(',')`,
  with reading-back functions that serve as their partners.
- `selection.dfy` (module `ItemSelection`) — the item toggle of `handleSelectItem`.
- `validation.dfy` (module `Validation`) — the candidate record, the nine-field schema as
  run with `abortEarly: false`, the error map built in the `catch` block (an imperative
  loop proved against its specification function), and the inline error slots it feeds.
- `multipart.dfy` (module `Multipart`) — the body built by successive `FormData.append`
  calls, and a decoder proving the body carries the record.
- `lists.dfy` (module `Lists`) — the item, state and city records, the sorted state codes
  and the city names.
- `register.dfy` (module `Register`) — the page itself as a class whose fields are the
  `useState` fields, with one method per handler or load completion, and the pure
  `SubmitOutcome` that specifies the submit handler (its properties are the lemma
  `SubmitOutcomeSpec`).

HTTP responses, the geolocation result, the e-mail format check and the outcome of the
POST are parameters. The page records what it asks of the outside world: requests,
toasts and the redirect timer.

Points where the code's behaviour in src/pages/Register/index.tsx is easy to misread:

- The state select's handler (lines 71-87) fetches cities for whatever value the select
  carries. There is no check for an empty code.
- A click on the map only re-centres the view (`MapCenterOnClick`, lines 52-58). It never
  changes the position; only the geolocation callback sets it. The integration tests
  (tests/integration/Register.spec.tsx:27-73) still mock a map with an `onClick` that
  sets a position; the page no longer has one.
- Each coordinate is checked on its own (lines 136-137). The record fails when either one
  is 0, not only when both are.
- A failed load only shows a toast (lines 79-83, 199-203, 213-217). Its list stays as it
  was, so a failed city load after an earlier successful one keeps the earlier state's
  cities.

The Yup behaviour modelled is as follows. String tests other than `required` pass on an
absent value. `email` also passes on the empty string. `required` fails on an absent or
empty string. `notOneOf` runs before a field's other tests. `array().required()` accepts
an empty array. Failures come in schema key order, and within a field in the order its
tests are declared. So a blank name yields the length failure and then the required one,
and the required message is the one that stays in the map.

## Model

| member | source | states |
|---|---|---|
| `ItemSelection.Toggle` | src/pages/Register/index.tsx:89-99 | a click flips the clicked id's membership: it is in the new selection exactly when it was not in the old one |
| `ItemSelection.RemoveSpec` | src/pages/Register/index.tsx:92 | the filter drops every occurrence of the id, keeps every other id's count, and keeps the remaining ids in their original order (a subsequence) |
| `ItemSelection.ToggleSpec` | src/pages/Register/index.tsx:89-99 | toggling a selected id removes it entirely and keeps the rest in order; toggling an unselected id appends it at the end; ids other than the clicked one keep their counts |
| `ItemSelection.ToggleTwice` | src/pages/Register/index.tsx:89-99 | clicking the same item twice restores the original membership, and restores the list itself when the item was not selected before |
| `ItemSelection.ToggleDistinct` | src/pages/Register/index.tsx:89-99 | a duplicate-free selection stays duplicate-free under any click |
| `Validation.Validate` | src/pages/Register/index.tsx:124-146 | the schema accepts a record iff name has at least 3 UTF-16 code units, email is non-empty and well formed, WhatsApp and city are non-empty, uf has exactly 2 UTF-16 code units, latitude and longitude are each non-zero, at least one item is chosen and an image is present; a rejection lists at least one failure, each naming a schema key |
| `Validation.TestsOfSpec` | src/pages/Register/index.tsx:124-146 | validating without stopping early produces no failure iff every listed field meets its rule, and every failure names one of the listed fields |
| `Validation.Utf16Length` | src/pages/Register/index.tsx:126-133 | a string's JavaScript length, the unit of `min(3)` and `length(2)`, lies between its character count and twice that, and equals the character count iff no character lies above U+FFFF |
| `Validation.FieldTestsSpec` | src/pages/Register/index.tsx:125-143 | one field's tests fail iff that field's rule is broken, and every failure they produce carries that field's path |
| `Validation.ErrorMapLastWins` | src/pages/Register/index.tsx:170-178 | the error map holds exactly the paths named by some failure (failures without a path are skipped), and each path holds the message of the last failure naming it |
| `Validation.ErrorMapAppend` | src/pages/Register/index.tsx:171-176 | folding two runs of failures one after the other gives the first run's map overridden by the second's |
| `Validation.ErrorMapOfTests` | src/pages/Register/index.tsx:170-178 | after validating a list of fields the map's keys are the paths of exactly the failing fields, each with that field's last failing message |
| `Validation.ErrorMapFailingFields` | src/pages/Register/index.tsx:146-178 | after a rejected submit the error map names exactly the fields whose rule the record breaks, each with its field's last failing message |
| `Validation.CollectErrors` | src/pages/Register/index.tsx:171-176 | the `forEach` loop leaves exactly the map the error-map specification gives for the failure list |
| `Validation.BlankFormFails` | src/pages/Register/index.tsx:124-146 | the untouched form (blank entries, position (0, 0), no items, no image) fails all nine fields |
| `Validation.BlankFormMessages` | src/pages/Register/index.tsx:239-353 | after submitting the untouched form the inline slots show the image, name, e-mail, WhatsApp, location, state, city and items messages, and the two coordinate failures share the single location line, shown when either coordinate's message is non-empty |
| `Decimal.ParseIntToString` | src/pages/Register/index.tsx:155-156 | the text put in the latitude and longitude parts reads back as the same number |
| `Decimal.DecodeJoinIds` | src/pages/Register/index.tsx:157 | the comma-joined items part of a non-empty selection reads back as the same ids in selection order |
| `Multipart.PayloadShape` | src/pages/Register/index.tsx:148-161 | the body has the parts name, email, whatsapp, uf, city, latitude, longitude, items in that order, then image exactly when a file was chosen; the coordinates are their decimal text, items the ids joined by ',' |
| `Multipart.PayloadRoundTrip` | src/pages/Register/index.tsx:148-161 | a record whose entries were all submitted and that has at least one item is read back from its body unchanged |
| `Multipart.BuildPayload` | src/pages/Register/index.tsx:148-161 | the successive appends build exactly the specified body in a new form-data object |
| `Lists.Insert` | src/pages/Register/index.tsx:212 | inserting into a sorted list keeps it sorted and adds exactly the one element |
| `Lists.SortStrings` | src/pages/Register/index.tsx:212 | the sort returns a sorted permutation of its input |
| `Lists.UfOptions` | src/pages/Register/index.tsx:212 | the state options are the fetched `sigla` codes, each as often as fetched, in sorted order |
| `Lists.UfOptionsUnique` | src/pages/Register/index.tsx:212 | any sorted list holding the fetched codes is the one the page shows, so the options are fully determined |
| `Lists.CityNames` | src/pages/Register/index.tsx:78 | the city list is the fetched `nome` values, one per city, in response order |
| `Register.SubmitOutcomeSpec` | src/pages/Register/index.tsx:146-183 | a record is rejected iff it fails validation, and then carries field errors for exactly its failing fields, each with that field's last failing message, and is never posted; otherwise it is posted as a body that reads back to the record; it is registered iff it is valid and the post succeeds |
| `Register.BlankSubmitRejected` | src/pages/Register/index.tsx:101-183 | submitting the untouched page is rejected whatever the post would do, and shows the eight required/choose messages |
| `Register.RegisterPage.constructor` | src/pages/Register/index.tsx:61-69 | every state field starts at its initial value (empty lists, no file, overlay hidden, position (0, 0), no errors), and the item and state lists are requested |
| `Register.RegisterPage.PositionFound` | src/pages/Register/index.tsx:187-192 | the geolocation callback sets the position; no other method changes it |
| `Register.RegisterPage.ItemsLoaded` | src/pages/Register/index.tsx:194-205 | a received item list replaces the items; a failure keeps them and adds exactly the item-load toast |
| `Register.RegisterPage.UfsLoaded` | src/pages/Register/index.tsx:207-219 | received states become the sorted code list; a failure keeps the list and adds exactly the state-load toast |
| `Register.RegisterPage.SelectUf` | src/pages/Register/index.tsx:71-87 | one city request for the chosen code; received cities replace the list in response order; a failure keeps the list and adds exactly the city-load toast |
| `Register.RegisterPage.SelectItem` | src/pages/Register/index.tsx:89-99 | the selection becomes the toggle of the old one, and stays duplicate-free |
| `Register.RegisterPage.SelectFile` | src/pages/Register/index.tsx:239 | the dropzone's file becomes the selected image |
| `Register.RegisterPage.ShowErrors` | src/pages/Register/index.tsx:170-178 | the catch block for a validation error sets the error map to exactly the rejection's field errors and changes nothing else |
| `Register.RegisterPage.PostPoint` | src/pages/Register/index.tsx:148-168 | an accepted record causes exactly one POST of its body; a successful post shows the overlay and schedules the 2-second redirect home; a failed one adds exactly the generic toast (lines 180-182) |
| `Register.RegisterPage.Submit` | src/pages/Register/index.tsx:101-185 | the error map is cleared and then holds the outcome's field errors (or nothing); the registry receives exactly one POST iff the record is valid; only a successful post shows the overlay and schedules the 2-second redirect home; a failed post adds exactly one generic toast and leaves the overlay as it was; the page invariant is kept |

## Left out

- Rendering: the JSX, styled components and theme are not modelled. The exception is the
  inline error slots (`Validation.InlineMessages`), which decide which validation messages
  are visible.
- The `Input`, `Select` and `Dropzone` components are not modelled beyond what the page
  receives from them. The dropzone hands over a file; an error slot shows a non-empty
  message.
- Routing, the "back to home" link and the navigation itself are not modelled. The
  redirect is recorded only as a scheduled 2-second timeout to `/`.
- The HTTP clients, the browser's geolocation, the toast library and timers are foreign
  calls. Their results are method parameters, and their calls are recorded in the page's
  `requests`, `toasts` and `timers` logs.
- Yup's e-mail regular expression is a parameter `isEmail`. The model does not say which
  strings it accepts.
- Yup's casting is not modelled. The value `validate` resolves to is unused by the page.
- The registry server is not part of this model. `Multipart.DecodePayload` and
  `Decimal.DecodeIds` are reference decoders that show what the body carries. They do not
  claim how the server reads it.
- Concurrency: the mount-time fetches may complete in any order, and a slow city response
  can overwrite a newer one. The model runs each completion as one atomic method call, in
  whatever order the caller chooses.
- `Register.RegisterPage.PositionFound`: coordinates are integers, because only equality
  with 0 matters to validation. `String` of a fractional number, NaN and floating point
  are not modelled.
- `Lists.SortStrings`: compares characters by Unicode code point. JavaScript's default
  sort compares UTF-16 code units; the two agree on the two-letter ASCII state codes.
- `Decimal.DecodeJoinIds`: stated for non-empty selections only. `[].join(',')` is the
  empty string, which does not read back as an empty list, and the page posts only after
  validation has demanded at least one item.
