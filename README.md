# Recruitment form: input formatters and branch selection

This project models the three pieces of logic in a small recruitment web form.

- **Input formatters** (`public/app.js`). On every keystroke the phone field is reduced to its ASCII digits, cut to 10 and shown as `ddd-ddd-dddd`. The Thai national ID field is reduced the same way, cut to 13 and shown as `d dddd ddddd dd d`.
- **Branch selection** (`public/branchSelect.js`). The page loads the branch list. It uses the server's records when the response says `success`, and a built-in list of nine branches otherwise. The `change` handler mirrors the selected branch's code into a hidden field. The `submit` handler navigates to `applicationform.html?` with the parameters `branch`, `code` and `text`.
- **Branch endpoint** (`functions/index.js`). `getBranches` maps the rows of the branch query to records and answers `{success, data, count}`. When the query fails it answers with nine mock branches and a `note`.

Layout:

- `wrappers.dfy`: `Option`, which stands for a property that may be absent.
- `text.dfy`: module `Text`. It holds the digit filter (`\D` removal), separator deletion, occurrence counting and `substring(0, n)`.
- `formatters.dfy`: module `Formatters`. It holds the two formatters, written branch for branch as in the source.
  - `Group` is an independent reference layout: cut a string into groups of given sizes with a separator between them.
  - Lemmas prove each formatter equal to `Group` with its own sizes (3, 3 for the phone; 1, 4, 5, 2 for the ID).
  - General facts about `Group` then give digit preservation, separator counts and positions, and idempotence.
- `branch_service.dfy`: module `BranchService`. The query is abstracted to its outcome, rows or a failure, and the HTTP response becomes the returned `Body`.
- `branch_select.dfy`: module `BranchSelect`.
  - Pure functions cover the fetch decision, the `find` lookup and the submit parameters.
  - The class `BranchController` holds the loaded `options`, the hidden field `hiddenCode` and the browser `location`. Its handlers update these fields.
  - End-to-end lemmas connect the server's bodies to what the client loads and submits.

Facts about the code that a reader might not expect:

- A successful response with an empty `data` array yields no options, so the loaded list can be empty (`EmptySuccessLoadsNothing`).
- The client's fallback list and the server's mock list agree on text and code, entry for entry (`FallbackParity`).
  - The client's fallback uses slugs such as `bkk-silom` as option values. So after a client-side fallback, the hidden code (`BKK01`) differs from the selected value (`FallbackCodeDiffersFromValue`).
  - When the server's mock list reaches the client as a successful response, the client uses the codes as values (`MockReachesClient`).
- The client tests the truthiness of `result.success`, not `success === true`. The model's `success` is a boolean that stands for that truthiness.

## Model

| member | source | states |
|---|---|---|
| `Text.DigitsOnly` | public/app.js:8 | the `\D` filter keeps only ASCII digits and never lengthens the input |
| `Text.Take` | public/app.js:12 | `substring(0, n)` keeps the first min(n, length) characters, a prefix of the input |
| `Formatters.FormatPhone` | public/app.js:7-23 | the phone handler's output is at most 12 characters long |
| `Formatters.LayOutPhone` | public/app.js:14-20 | the length-selected phone branches produce at most 12 characters from at most 10 digits |
| `Formatters.PhoneLayoutIsGrouping` | public/app.js:14-20 | the three phone branches are exactly the grouping 3, 3, rest with `-` between groups |
| `Formatters.PhoneIsGrouping` | public/app.js:8-21 | the phone handler lays out the first ten input digits in groups 3, 3, rest |
| `Formatters.PhoneKeepsDigits` | public/app.js:8-21 | the output holds only ASCII digits and `-`; deleting the dashes, or keeping only the digits, gives exactly the first min(10, n) input digits in order |
| `Formatters.PhoneEmpty` | public/app.js:9-11 | the output is empty if and only if the input has no ASCII digit (empty, letters, Thai digits) |
| `Formatters.PhoneDashes` | public/app.js:14-20 | 0 dashes for 1-3 digits, 1 for 4-6, 2 for 7-10; dashes exactly at positions 3 and 7; length is digits plus dashes, at most 12 |
| `Formatters.PhoneIdempotent` | public/app.js:7-23 | formatting an already formatted phone value returns it unchanged |
| `Formatters.FormatIdCard` | public/app.js:29-48 | the ID handler's output is at most 17 characters long |
| `Formatters.LayOutIdCard` | public/app.js:36-46 | the length-selected ID branches produce at most 17 characters from at most 13 digits |
| `Formatters.IdCardLayoutIsGrouping` | public/app.js:36-46 | the five ID branches are exactly the grouping 1, 4, 5, 2, rest with a space between groups |
| `Formatters.IdCardIsGrouping` | public/app.js:30-47 | the ID handler lays out the first 13 input digits in groups 1, 4, 5, 2, rest |
| `Formatters.IdCardKeepsDigits` | public/app.js:30-47 | the output holds only ASCII digits and spaces; deleting the spaces gives exactly the first min(13, n) input digits in order |
| `Formatters.IdCardEmpty` | public/app.js:30-33 | the output is empty if and only if the input has no ASCII digit |
| `Formatters.IdCardSpaces` | public/app.js:36-46 | 0 spaces for 1 digit, 1 for 2-5, 2 for 6-10, 3 for 11-12, 4 for 13; spaces exactly at positions 1, 6, 12, 15; at most 17 long |
| `Formatters.IdCardIdempotent` | public/app.js:29-48 | formatting an already formatted ID value returns it unchanged |
| `BranchService.MapRows` | functions/index.js:49-57 | one record per row, same length and order; code is `branch_code`, text is `branchname_th`, the other columns are copied unchanged |
| `BranchService.SuccessBody` | functions/index.js:64-68 | the query-path body has `success`, no `note`, and `count` equal to the number of records, one per row |
| `BranchService.MockBody` | functions/index.js:73-90 | the error-path body has `success`, a `note`, the nine mock records, and `count` 9 |
| `BranchService.GetBranches` | functions/index.js:36-90 | every body has `success` and `count == |data|`; the query path returns the mapped rows (`MapRows`), at most 10 of them (the LIMIT), and no note; the error path returns the mock list with the exact note |
| `BranchService.MockCodesDistinct` | functions/index.js:73-83 | the mock codes are pairwise distinct, and so are the mock values |
| `BranchSelect.ToOptions` | public/branchSelect.js:21-30 | one option per record, in order, with value and code both the record's code and text, status and location fields copied |
| `BranchSelect.FetchBranches` | public/branchSelect.js:6-52 | a successful response with an array gives exactly `ToOptions` of the records (in order, value = code = record code, all fields copied); any other outcome gives exactly the fallback list |
| `BranchSelect.Find` | public/branchSelect.js:97-99 | the result, if any, is an option carrying the selected value; there is none if and only if no option carries it |
| `BranchSelect.CodeFor` | public/branchSelect.js:97-100 | the hidden code is `""` when no option carries the selected value |
| `BranchSelect.SubmitParams` | public/branchSelect.js:109-119 | the parameters are `branch`, `code`, `text` in that order; `branch` is the selected value; `code` is what the change handler would mirror; code and text are the match's, or both `""` |
| `BranchSelect.BranchController.constructor` | public/branchSelect.js:55 | the options are what `fetchBranches` yields for the request's outcome |
| `BranchSelect.BranchController.OnChange` | public/branchSelect.js:95-101 | the hidden code becomes the first matching option's code or `""`; the options and the location are unchanged |
| `BranchSelect.BranchController.OnSubmit` | public/branchSelect.js:106-121 | the location becomes `applicationform.html?` followed by the serialised submit parameters; the options and the hidden code are unchanged |
| `BranchSelect.FindFirst` | public/branchSelect.js:97-99 | `find` returns the first option whose value equals the selected value |
| `BranchSelect.LookupCorrect` | public/branchSelect.js:97-119 | with distinct values, selecting option i mirrors its code, and submit sends its value, code and text |
| `BranchSelect.UnknownValue` | public/branchSelect.js:97-114 | a value no option carries clears the hidden code, and submit sends empty code and text |
| `BranchSelect.ServerPathCodeIsValue` | public/branchSelect.js:21-30 | on the server path, selecting any loaded value mirrors that same value as the code, even with duplicates |
| `BranchSelect.FallbackDistinct` | public/branchSelect.js:40-50 | the fallback values are pairwise distinct, and so are its codes |
| `BranchSelect.FallbackCodeLengths` | public/branchSelect.js:41-49 | every fallback code has five characters and no fallback value does |
| `BranchSelect.FallbackCodeDiffersFromValue` | public/branchSelect.js:41-49 | after a client-side fallback, selecting entry i mirrors its code, which differs from the selected value |
| `BranchSelect.FailureLoadsFallback` | public/branchSelect.js:33-50 | a failed request, a falsy `success` or a non-array `data` loads exactly the nine fallback entries |
| `BranchSelect.EmptySuccessLoadsNothing` | public/branchSelect.js:17-32 | a successful response with empty `data` loads no options |
| `BranchSelect.FallbackParity` | functions/index.js:74-82 | the server's mock list and the client's fallback list have the same length, texts, codes and slugs, entry for entry |
| `BranchSelect.RowsToSubmit` | functions/index.js:49-68 | end to end: the client loads one option per row with value = code = `branch_code` and text = `branchname_th`; with distinct codes, selecting a row submits its code and name |
| `BranchSelect.MockReachesClient` | functions/index.js:73-90 | when the query fails, the client loads the fallback texts and codes, with codes as the option values instead of slugs |

## Left out

- URL query serialisation: the percent-encoding of `URLSearchParams` (the application/x-www-form-urlencoded serializer, section 5.2 of the WHATWG URL Standard) is not modelled. `OnSubmit` takes the serializer as a parameter, so the submit output is the ordered key/value list.
- `selectedValue || ""`: the selected value is always a string, so `|| ""` changes nothing and the model passes it through.
- Network and decoding: `fetch`, `response.json()` and the endpoint URL become the `FetchOutcome` datatype. A `data` that is not an array is `None`.
- The searchable dropdown (a third-party widget that is not part of this model): sorting options by Thai text, searching, refusing new entries, and HTML rendering and escaping. The option order the user sees is therefore not modelled.
- Query execution: the SQL text, the status filter, CORS, Firebase initialisation and logging in `functions/index.js`. The query result is `QueryOutcome`, and its `LIMIT 10` is the `WithinLimit` precondition of `GetBranches`.
- NULL columns: row columns are modelled as strings, so a NULL column value copied as `null` is not represented.
- The `healthCheck` endpoint only reports the clock and a constant.
- Logging: the `console.log` and `console.error` calls in `public/branchSelect.js` (lines 8, 18, 37-38, 56, 91) have no effect on the modelled values.
- DOM wiring: event registration and load order (including the ID card listener registered outside `DOMContentLoaded`), and the writes to `e.target.value` and `window.location.href`. The writes are represented only as return values and class fields.
- String width: JavaScript `length` and `substring` count UTF-16 code units, and Dafny strings count characters. The formatters slice only after the digit filter, when every character is an ASCII digit, so the two agree.
- The browser test page `test/form-validation-tests.js` is not part of this model. Its verdicts come from the browser's constraint validation.
- `BranchSelect.CodeFor`: its own contract states only the no-match case. That the code is the first match's code is stated by `FindFirst` and `LookupCorrect`.
