# AI recipe generator: ingredient parsing and request lifecycle

The application is a single-page form. The user types a comma-separated list
of ingredients and submits it. The page sends the list to a hosted language
model through a backend query and shows either the recipe text it gets back
or an error. All of its logic is in `handleSubmit` in `src/App.tsx`, and this
project models and proves that logic in Dafny:

- **The ingredient parser** (lines 22-25):
  `input.split(",").map((s) => s.trim()).filter(Boolean)`. The module
  `JsString` models the ECMAScript built-ins the parser uses. `Split` is
  `String.prototype.split` with a one-character separator. `Trim`,
  `TrimStart` and `TrimEnd` strip the WhiteSpace and LineTerminator code
  points of sections 12.2 and 12.3 of ECMA-262. `Join` is
  `Array.prototype.join`. The module `Ingredients` composes them into
  `Parse`.
- **The request lifecycle** (lines 10-41). `RecipeApp.App` is a class whose
  fields are the component's four state hooks: `ingredientsInput`,
  `loading`, `result` and `error`. `handleSubmit` suspends at its single
  `await`, so it is split there into two methods. `Begin` sets `loading`,
  clears `result` and `error`, and returns the parsed ingredients that the
  query is sent. `Settle` takes how the query settled (an `Outcome`) and
  follows the source's branches: error list, data payload, no data,
  exception. It then clears `loading`, as the `finally` block does.
  `HandleSubmit` runs both. Each method is proved against a pure function
  (`Start`, `Resolve`, `AfterSubmit`), and the precedence rules are lemmas
  about those functions:
  - JavaScript `||` falls back on `null`, `undefined` and `""`.
  - `??` falls back only on `null` and `undefined`.
  - An empty `errors` array falls through to the data check.
- **The render rule** (lines 54-64). The button is disabled and relabelled
  while loading. The error and result blocks show only for non-empty text.

`Outcome` stands in for the backend call. `Returned(errors, data)` is a
resolved call: the `message` of each error, and the payload's nullable `body`
and `error`. `Threw(message, asString)` is a call that rejected with a value:
that value's `message` property and what `String(err)` gives. `ThrewNullish`
is a call that rejected with `null` or `undefined`. In that case
`err.message` itself throws inside the `catch` block. Only the `finally`
block then runs, and the handler's own promise rejects. `Settle` reports this
case through its `rejected` result.

With overlapping submissions one might expect the last settlement to win.
The code does not do that. A settlement sets only one field, and nothing
clears the other one in between. So if one call settles with a result and an
earlier call then throws, both `result` and `error` end up set.
`OverlapKeepsBoth` shows this.

Line 1 of `src/App.tsx` imports only the type `FormEvent`, yet the component
calls `useState`. The model takes `useState` to be React's hook.

## Model

| member | source | states |
|---|---|---|
| JsString.IsWhiteSpace | src/App.tsx:24 | the WhiteSpace and LineTerminator code points of ECMA-262 sections 12.2 and 12.3, which `trim` strips |
| JsString.Join | src/App.tsx:30 | `Array.prototype.join`; `JoinSplit` and `SplitJoin` show it inverts `Split` |
| JsString.Split | src/App.tsx:23 | `split(",")` gives one more piece than there are separators |
| JsString.SplitPiecesFree | src/App.tsx:23 | no piece of a split contains the separator |
| JsString.JoinSplit | src/App.tsx:23 | joining the pieces back with the separator gives the original string |
| JsString.SplitJoin | src/App.tsx:23 | splitting the join of a non-empty list of separator-free pieces gives that list back |
| JsString.SplitNoSeparator | src/App.tsx:23 | a string without the separator splits into itself alone |
| JsString.SplitAround | src/App.tsx:23 | the pieces of `a + "," + b` are those of `a` followed by those of `b` |
| JsString.TrimStart | src/App.tsx:24 | the result is no longer than the input and does not start with white space |
| JsString.TrimStartSuffix | src/App.tsx:24 | `trimStart` keeps a suffix of its input |
| JsString.TrimStartDropsWhiteSpace | src/App.tsx:24 | what `trimStart` drops is all white space |
| JsString.TrimEnd | src/App.tsx:24 | the result is no longer than the input and does not end with white space |
| JsString.TrimEndPrefix | src/App.tsx:24 | `trimEnd` keeps a prefix of its input |
| JsString.TrimEndDropsWhiteSpace | src/App.tsx:24 | what `trimEnd` drops is all white space |
| JsString.Trim | src/App.tsx:24 | `trim` gives a string no longer than its input, with white space at neither end |
| JsString.TrimInfix | src/App.tsx:24 | the trimmed string is the infix between white-space-only leading and trailing parts |
| JsString.TrimBlank | src/App.tsx:24 | `trim` gives `""` exactly when the input is all white space |
| JsString.TrimTrimmed | src/App.tsx:24 | trimming a string without white space at its ends changes nothing |
| JsString.TrimIdempotent | src/App.tsx:24 | trimming twice is trimming once |
| JsString.TrimWithin | src/App.tsx:24 | every character of the trimmed string occurs in the input |
| JsString.TrimPadded | src/App.tsx:24 | white space around a non-blank trimmed string is exactly what `trim` removes |
| JsString.TrimStartPadded | src/App.tsx:24 | `trimStart` removes exactly a white-space prefix before a non-white character |
| JsString.TrimEndPadded | src/App.tsx:24 | `trimEnd` removes exactly a white-space suffix after a non-white character |
| Ingredients.NonEmpty | src/App.tsx:25 | `filter(Boolean)` never lengthens the list; `NonEmptyKeeps`, `NonEmptyKeepsAll`, `NonEmptySingle` and `NonEmptyConcat` state what it keeps |
| Ingredients.NonEmptyKeeps | src/App.tsx:25 | everything `filter(Boolean)` keeps is non-empty and comes from its input |
| Ingredients.NonEmptyKeepsAll | src/App.tsx:25 | every non-empty input string is kept, and the result is empty exactly when every input string is empty |
| Ingredients.NonEmptySingle | src/App.tsx:25 | one string is kept exactly when it is non-empty; with `NonEmptyConcat` this fixes the result and its order on every list |
| Ingredients.TrimAll | src/App.tsx:24 | `.map((s) => s.trim())`; `TrimAllTrims` and `TrimAllConcat` state its properties |
| Ingredients.TrimAllTrims | src/App.tsx:24 | the `map` trims each piece in place, keeping the count, and brings in no comma |
| Ingredients.TrimAllConcat | src/App.tsx:24 | the `map` works piece by piece, so it distributes over concatenation |
| Ingredients.NonEmptyConcat | src/App.tsx:25 | the filter works piece by piece, so it distributes over concatenation |
| Ingredients.Parse | src/App.tsx:22-25 | the ingredient list has at most one element more than the input has commas |
| Ingredients.ParseElements | src/App.tsx:22-25 | every parsed ingredient is non-empty, has no white space at either end, and has no comma |
| Ingredients.ParseAround | src/App.tsx:22-25 | order is kept and nothing is merged: `Parse(a + "," + b) == Parse(a) + Parse(b)` |
| Ingredients.ParseNoComma | src/App.tsx:22-25 | a comma-free input gives `[]` if it is blank and `[Trim(input)]` otherwise |
| Ingredients.ParseEmpty | src/App.tsx:22-25 | the list is empty exactly when the input holds only commas and white space, e.g. `""` |
| Ingredients.ParseJoin | src/App.tsx:22-25 | a list of ingredients written back with commas parses to the same list |
| Ingredients.ParseNormalises | src/App.tsx:22-25 | re-parsing the comma-joined result gives the same list (idempotence) |
| Ingredients.ParseSingle | src/App.tsx:22-25 | an input that is one ingredient, such as `"x"`, gives `[input]` |
| Ingredients.ParsePaddedList | src/App.tsx:22-25 | inputs shaped like `"a, b ,,c"` give `[a, b, c]` |
| Ingredients.ParseSpaced | src/App.tsx:22-25 | an ingredient with one space on each side gives just the ingredient |
| Ingredients.ParseLeadingComma | src/App.tsx:22-25 | a leading comma adds no element |
| Ingredients.ParseKeepsDuplicates | src/App.tsx:22-25 | duplicates are not merged: `Parse(x + "," + x) == [x, x]` |
| RecipeApp.Truthy | src/App.tsx:32 | JavaScript truthiness of a nullable string: non-null and non-empty |
| RecipeApp.OrElse | src/App.tsx:32 | logical OR on nullable strings; `PayloadGivesResult` states the resulting precedence |
| RecipeApp.Or | src/App.tsx:32 | logical OR with a string literal on the right; `PayloadGivesResult` shows the result is never empty |
| RecipeApp.Coalesce | src/App.tsx:37 | `a ?? b`, falling back only on null or undefined; `ExceptionShowsMessage` states it |
| RecipeApp.HasErrors | src/App.tsx:29 | `errors && errors.length`; `ErrorListWins`, `PayloadGivesResult` and `NoDataIsError` state both sides |
| RecipeApp.Start | src/App.tsx:17-19 | `loading` set, `result` and `error` cleared; `RenderWhileLoading` and `App.Begin` state it |
| RecipeApp.Render | src/App.tsx:54-64 | button and blocks of the page; `RenderWhileLoading`, `RenderAfterSubmit` and `EmptyMessageShowsNothing` state them |
| RecipeApp.Resolve | src/App.tsx:27-40 | settling clears `loading`, keeps the input, and changes at most one of `result` and `error`; a new result is non-empty and needs a resolved call; the promise rejects exactly for a null or undefined exception |
| RecipeApp.AfterSubmit | src/App.tsx:15-41 | after a submission `loading` is false, the input is unchanged, at most one of `result` and `error` is set, a result is non-empty and comes only from an error-free payload, and nothing is set when the handler rejects |
| RecipeApp.SubmitForgetsPrevious | src/App.tsx:16-19 | the outcome depends only on the input text and the reply, not on earlier `loading`, `result` or `error` |
| RecipeApp.ErrorListWins | src/App.tsx:29-30 | a non-empty error list sets `error` to the messages joined with `", "` and leaves `result` null, whatever `data` holds |
| RecipeApp.PayloadGivesResult | src/App.tsx:31-32 | with no errors (absent or `[]`) a payload sets `result` to the non-empty `body`, else the non-empty `error`, else `"No response from model."`; `error` stays null |
| RecipeApp.NoDataIsError | src/App.tsx:33-34 | neither errors nor data sets `error` to `"No data returned from API."` and leaves `result` null |
| RecipeApp.ExceptionShowsMessage | src/App.tsx:36-37 | an exception sets `error` to its `message` whenever that is not null or undefined, even `""`, and otherwise to `String(err)`; `result` stays null |
| RecipeApp.RenderWhileLoading | src/App.tsx:54-55 | while the query is in flight the button is disabled, reads "Generating...", and no block shows |
| RecipeApp.RenderAfterSubmit | src/App.tsx:54-64 | after a submission the button is enabled and reads "Generate Recipe", at most one block shows, and any result shows |
| RecipeApp.EmptyMessageShowsNothing | src/App.tsx:59-64 | an exception with an empty `message` sets `error` to `""`, and the page shows neither block |
| RecipeApp.OverlapKeepsBoth | src/App.tsx:17-39 | two overlapping submissions can leave both `result` and `error` set |
| RecipeApp.App.constructor | src/App.tsx:10-13 | the state starts as `""`, `false`, `null`, `null` |
| RecipeApp.App.SetIngredientsInput | src/App.tsx:52 | `onChange` replaces the input text and nothing else |
| RecipeApp.App.Begin | src/App.tsx:16-27 | sets `loading`, clears `result` and `error`, keeps the input, and returns `Parse(input)` as the query argument |
| RecipeApp.App.Settle | src/App.tsx:27-40 | the new state and the rejection flag are those of `Resolve`; a consistent in-flight state stays consistent |
| RecipeApp.App.HandleSubmit | src/App.tsx:15-41 | the new state and the rejection flag are those of `AfterSubmit`; the query is sent `Parse(input)` |

## Left out

- The backend call and `generateClient` (lines 7 and 27) are not modelled. How the call settles is the `Outcome` input, and `String(err)` is part of that input.
- `e.preventDefault()` (line 16), React's batching of state updates, hook semantics and the JSX markup beyond the button and the two blocks are not modelled. They are browser and framework behaviour.
- Concurrency is not modelled. Overlapping submissions appear only as sequences of `Start` and `Resolve` in `OverlapKeepsBoth`. No scheduler or async ordering is modelled.
- `src/main.tsx` and `amplify/auth/resource.ts` are not part of this model. They are bootstrapping and configuration passed to libraries.
- A rejected value whose `message` is not a string is not modelled (line 36 declares `catch (err: any)`, so nothing is checked there; `throw {message: 42}` would reach `setError(42)`). The client rejects with `Error` objects, whose `message` is a string.
- A rejected value for which `String(err)` itself throws (such as `Object.create(null)`) is not modelled. There the handler's promise would reject, as for `ThrewNullish`.
- An error object whose `message` is missing (`join` would render it as `""`) and a non-string payload field are not modelled. The query's declared types give both as strings.
- Strings are sequences of Unicode code points, while JavaScript strings are UTF-16 code units. The two agree here: `,` and every white-space code point `trim` strips lie in the Basic Multilingual Plane.
