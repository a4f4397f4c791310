# JSON value extractor — a Dafny model

The application is a single page. The user pastes a JSON document, types a comma-separated
list of dot-path variables such as `params.affiliation, params.id`, and may also name a list
path such as `params.items`. It then shows one `variable: value` line per variable.

- **Direct mode.** With no list path, every variable is walked from the document root.
- **List mode.** With a list path, every item of the array it reaches gets one block with one
  line per variable. The variable's second dot-segment is the item's property.
- **"params" and "data".** Both are accepted as the first segment of every direct-mode
  variable and of the list path. Both are rewritten to the key "data", which is then looked up
  in the document like any other key. List-mode variables ignore their first segment: only
  the second one is read.

This project models the core of `app.js`:

- **`normalizePathFirstSegment`.** An in-place rewrite of an array, kept as a method on an
  `array<string>`.
- **The two extractors.** `extractDirectVariables` is `Extract.ExtractDirect`, and
  `extractListVariables` is `Extract.ExtractList`. Each keeps the original's nested loops. Each
  is proved equal to a specification function (`DirectReport`, `ListReport`). Those functions
  are a first-failure-or-concatenation fold (`Collecting.Collect`) over one entry per variable
  or item.
- **`processData` and `extractValues`.** Their decisions are one pure function
  (`App.ExtractValues`):
  - the input checks, in the original's order;
  - the choice of mode;
  - the exact text of every error, `"Error: " + message + " Try again."`.

The JavaScript that the core relies on is written out in Dafny:

- **`String.prototype.trim`**, with the ECMAScript white-space and line-terminator set
  (`JsText.Trim`).
- **`String.prototype.split`** with a one-character separator (`JsText.Split`).
- **Property access `value[key]`.** Object members, and canonical decimal indices on arrays
  (`JsonValue.Lookup`).
- **`${value}`** (`JsonValue.TemplateText`): `String(n)` for integers; `join(",")` for arrays,
  with null elements shown empty; `"[object Object]"` for objects.
- **The falsy values** of `!data.parsed` (`JsonValue.Falsy`).

Two library calls are parameters of the model:

- `JSON.parse` is `parse: string -> Option<Json>`, where `None` means it throws;
- `JSON.stringify(value, null, 2)` is `pretty: Json -> string`.

Three behaviours of the code worth knowing:

- **Empty input.** `extractValues` throws "Please enter JSON data in the params input field.",
  because the `null` parse of `processData` is falsy. It does not show an empty result.
- **The "data" root.** After normalisation this key is looked up in the parsed document like
  any other key. A document without a top-level `data` member therefore fails for every
  `params.` variable.
- **Values in list mode.** These are always shown with `${…}`, so an object shows as
  `[object Object]`. Only direct mode pretty-prints objects and arrays.

Files:

- `wrappers.dfy`: `Option` and `Result`.
- `js_text.dfy`: trim, split and join, and decimal text and canonical array indices.
- `json.dfy`: the `Json` value, `Lookup`, `Walk` and `${…}` text.
- `paths.dfy`: `normalizePathFirstSegment` and the reading of a variable as a path.
- `collect.dfy`: the fold that stops at the first thrown error.
- `extract.dfy`: the two extractors.
- `app.dfy`: `processData` and `extractValues`.
- `examples.dfy`: worked inputs — "params.affiliation, params.id" over
  `{"data":{"id":82850,"affiliation":"Acme"}}`, and "item.name, item.price" over a list of two
  items — derived from the general lemmas.

## Model

| member | source | states |
|---|---|---|
| Paths.NormalizeFirstSegment | app.js:24-29 | Rewrites the array in place to the normalised segments and returns the same array. |
| Paths.Normalized | app.js:24-29 | Keeps the length and every segment after the first. The new first segment is "data" exactly when the old one was "params" or "data". Any other first segment is kept. |
| Paths.NormalizedIdempotent | app.js:24-29 | Normalising twice gives the same segments as normalising once. |
| Paths.PathOf | app.js:238 | The keys direct mode walks for a variable, and list mode for the list path (app.js:292): its dot-separated pieces, normalised. |
| Paths.ParamsIsData | app.js:238 | "params.<rest>" and "data.<rest>" are both walked as the key "data" followed by the pieces of `<rest>`. |
| Paths.RootThenRest | app.js:292 | A list path whose first piece is "params" or "data" becomes the key "data" followed by the remaining pieces. |
| Paths.PropertyName | app.js:319 | Without a dot, the property is the key "undefined". With a dot, it is a piece that contains no dot. |
| Paths.PropertyNameOf | app.js:319 | For "<alias>.<property>", with or without further segments, the property key is `<property>`. The alias is ignored. |
| JsText.Trim | app.js:33 | The result is the slice of the input left after removing only ECMAScript white space at both ends, and it neither starts nor ends with white space. It is empty exactly when the input is all white space. |
| JsText.TrimIdempotent | app.js:196 | Trimming twice gives the same text as trimming once. |
| JsText.Split | app.js:207 | Splitting gives at least one piece. |
| JsText.SplitPieces | app.js:238 | No piece contains the separator. There is more than one piece exactly when the text contains it. |
| JsText.JoinSplit | app.js:238 | Joining the pieces with the separator gives back the original text. |
| JsText.SplitJoin | app.js:238 | Splitting a join of separator-free pieces gives back those pieces. |
| JsText.JoinSnoc | app.js:328 | Joining one more piece at the end adds the separator and that piece. |
| JsText.SplitAfterPiece | app.js:238 | A separator-free first piece followed by the separator splits as that piece, then the split of the rest. |
| JsText.NatToDecimal | app.js:279 | `String(n)` for an integer n ≥ 0 is all digits. It has a leading zero only for 0, and 0 is "0". |
| JsText.IntToDecimal | app.js:279 | A negative integer's text is "-" followed by the text of its magnitude. |
| JsText.ArrayIndexOfDecimal | app.js:264 | The decimal text of n is read back as array index n. |
| JsText.DecimalOfArrayIndex | app.js:264 | An array-index key is exactly the decimal text of its index, so "01" and "1.0" are not indices. |
| JsonValue.Lookup | app.js:264 | `value[key]`, and the `in` check of app.js:322: an object gives its own member, an array its element under a canonical index key, and any other value, null included, nothing. |
| JsonValue.Walk | app.js:262-270 | The walk of the key loops (also app.js:297-302): no keys give the start value, and each key steps to its property value. A missing property, or null met before the last key, ends the walk with nothing. |
| JsonValue.LookupArray | app.js:264 | An array has a key exactly when the key is the decimal text of an index below its length. That key gives the element at the index. |
| JsonValue.WalkAppend | app.js:262-270 | Walking a + b is walking a, then walking b from where a ends. A failure anywhere fails the whole walk. |
| JsonValue.NullEndsWalk | app.js:264 | Once the walk reaches null, any further key fails. |
| JsonValue.TemplateText | app.js:279 | `${value}`: "null", "true"/"false", the decimal text of a number, a string itself, the joined elements of an array, "[object Object]" for an object. |
| JsonValue.ElementsText | app.js:328 | `${array}`: the elements' texts joined with ",". |
| JsonValue.ElementsTextIsJoin | app.js:328 | An array's `${…}` text is `join(",")` of its elements' texts, null elements giving the empty text. |
| JsonValue.Falsy | app.js:190 | `!value` holds exactly for null, false, 0 and the empty string; every object and array passes. |
| Collecting.CollectStep | app.js:276-279 | One more successful entry appends its text to the result so far. A failing entry makes the failure the result. |
| Collecting.CollectFailedPrefix | app.js:265 | After an error has been thrown, the remaining entries do not change the outcome. |
| Collecting.CollectAllSucceed | app.js:281-283 | When every entry succeeds, the result is the concatenation of their texts, in order. |
| Collecting.CollectFirstFailure | app.js:264-266 | The outcome is the first failing entry. |
| Collecting.CollectSucceeds | app.js:235-283 | The fold succeeds exactly when every entry succeeds. |
| Extract.Message | app.js:265 | "Invalid variable: <variable>", "List not found: <list>" (app.js:299) and "<list> is not an array" (app.js:306); the variable or list path reads back from its message. |
| Extract.IsObject | app.js:274 | `typeof value === "object" && value !== null`: objects and arrays. |
| Extract.Formatted | app.js:274-279 | An object or array is shown by `JSON.stringify(value, null, 2)`, and any other value by `${value}`. |
| Extract.ItemLine | app.js:319-328 | An item that is not an object throws the TypeError of `in`. An object or array without the variable's property gives "Invalid variable: <variable>". Otherwise the line is "<variable>: ${value}". |
| Extract.SplitToArray | app.js:238 | Gives a fresh array holding the pieces of `split`. |
| Extract.Resolve | app.js:262-270 | The walk loop over the key array returns exactly the walk of the keys. It fails on null or on an undefined key. |
| Extract.ExtractDirect | app.js:230-284 | `extractDirectVariables` returns or throws exactly `DirectReport`. |
| Extract.DirectReportSucceeds | app.js:235-283 | When every variable resolves, the report is one `variable: value` line per variable, in input order. Objects and arrays are pretty-printed; other values use `${…}`. |
| Extract.DirectReportFails | app.js:264-266 | The first variable, in input order, that does not resolve makes the whole report "Invalid variable: <variable>". |
| Extract.DirectReportOutcome | app.js:230-284 | Direct mode succeeds exactly when every variable resolves. |
| Extract.DirectParamsIsData | app.js:238-269 | "params.x" and "data.x" give the same value. Both look up the document's "data" member and then walk x. |
| Extract.ExtractList | app.js:287-336 | `extractListVariables` returns or throws exactly `ListReport`. |
| Extract.ExtractItem | app.js:311-333 | The loop body for one item returns or throws exactly that item's block: its lines, then a blank line. |
| Extract.ItemBlockSucceeds | app.js:311-333 | An item that has every property gives one line per variable, then a blank line. |
| Extract.ItemBlockOutcome | app.js:316-329 | An item's block is produced exactly when the item has every property. |
| Extract.PrimitiveItemFails | app.js:322 | An item that is not an object fails at the first variable with the TypeError of `in`. |
| Extract.ListReportSucceeds | app.js:309-335 | Over an array whose items all have every property, the report is one block per item, in array order. |
| Extract.ListReportFirstMissing | app.js:322-324 | The first missing property aborts the report: items in array order, variables in input order. The error is "Invalid variable: <variable>", or the `in` TypeError on a primitive item. |
| Extract.ListReportOutcome | app.js:292-307 | A failed walk gives "List not found: <list>". A non-array gives "<list> is not an array". Otherwise the report succeeds exactly when every item has every property. |
| Extract.ItemNullProperty | app.js:322-328 | A property that is present with the value null passes the `in` check and shows as "null". |
| App.ProcessData | app.js:32-47 | Blank input gives no text and a null parse. A failed parse of the trimmed text is the only failure, "Invalid JSON data". Otherwise the result holds the trimmed text and its parse. |
| App.VariableList | app.js:207 | There is at least one variable. None contains a comma, and none starts or ends with white space. |
| App.VariableListOfJoin | app.js:207 | Comma-separated pieces give, in order, each piece with its surrounding white space trimmed: "params.a, params.b" gives "params.a" and "params.b". |
| App.ErrorText | app.js:225 | The shown text is "Error: ", then the message unchanged, then " Try again.". |
| App.Shown | app.js:224-226 | A thrown error is shown as "Error: ", then that error's message, then " Try again.". A returned text is shown unchanged. |
| App.ExtractValues | app.js:185-227 | Every failure is shown with the "Error: " prefix and the " Try again." suffix. |
| App.ExtractValuesWithoutJson | app.js:188-192 | Blank input is reported as missing JSON data, whatever else was typed. Text that does not parse is reported as invalid JSON. |
| App.ExtractValuesDispatch | app.js:190-217 | Once the input has parsed, the checks run in order: a falsy document, then a blank variable list. After that, a blank list path selects direct mode and any other list path selects list mode. |
| Examples.NormalizedExamples | app.js:24-29 | ["params","x"] and ["data","x"] both normalise to ["data","x"]. ["other","x"] is unchanged. |
| Examples.DirectExample | app.js:234-260 | "params.affiliation, params.id" over `{"data":{"id":82850,"affiliation":"Acme"}}` gives "params.affiliation: Acme\nparams.id: 82850\n". |
| Examples.ItemExample | app.js:328 | The item `{"name":…, "price":n}` with "item.name, item.price" gives two lines and a blank line. |
| Examples.ListExample | app.js:287-336 | Over two items with "item.name, item.price", list mode gives two blocks of two lines, each followed by a blank line. |

## Left out

- The page itself is not modelled. This covers the DOM lookups, the event wiring of `initializeApp` and the writes to `innerText`. The model returns the text that would be shown.
- `displayData` is not modelled. It only renders the input back, raw or pretty and optionally highlighted. The same goes for `highlightVariables` and the commented-out highlighter, which only produce markup.
- `JSON.parse` and `JSON.stringify(value, null, 2)` are parameters. `JSON.stringify` depends on member insertion order, which a Dafny `map` does not keep.
- JSON numbers are integers. Fractions and exponents, and `String(n)`'s exponent form at 1e21 and above, are not modelled.
- Property lookup sees only a JSON value's own members and array indices. Inherited and built-in properties are not modelled: `length`, `toString`, `constructor`, and character indices on strings.
- Extract.PrimitiveItemFails: the TypeError message follows the V8 wording ("Cannot use 'in' operator to search for '<key>' in <value>"). Other engines word it differently.
- The loop variable field (`loopVar`) is read and trimmed but never used, so it is not an input of the model.
- App.ExtractValues: shows only the text of the last `innerText` write. After a success the original also re-renders the input through `displayData`, which is not modelled.
