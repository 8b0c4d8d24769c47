# AI apps directory: a verified model of `myFunctions.js`

`myFunctions.js` is the front-end module of a small directory of AI
applications, kept in the browser's local storage. This project models its
logic in Dafny and proves what that logic promises:

- **escapeHTML**, the escaping applied to the name, company, domain and
  summary of a record before they go into the page, and to toast messages.
  The URL fields and the id are interpolated into attributes unescaped. A decoder is its partner: decoding escaped text gives the
  original back.
- **The add-app form.** This covers three of the validators, with URL validity as a parameter, the second (effective)
  `validateForm` with its six error slots, and `formToApp`. The submit
  handler puts the new record at the front of the stored list.
- **The apps page.** `applyFilters` filters by query, domain and free/paid,
  then sorts in one of four orders. `paginate` slices one page. The `state`
  object is updated by the page's controls.
- **CSV export** (`toCSV`). Fields are quoted by the rules of RFC 4180,
  section 2 (rules 5 to 7), and records are separated by a line feed. A
  decoder is proved to read every export back to the exported cells.
- **JSON import.** Normalisation rejects a payload that is not an array and
  coerces each element field by field.
- **The colour theme**: `applyTheme`, `toggleTheme` and the initial apply.
- **Export and clear** over the stored list.

The modules follow the parts of the source:

- `Text`: the JavaScript string operations used. `trim` strips the full JavaScript white-space set (WhiteSpace and LineTerminator code points).
- `Html`: escapeHTML.
- `Records`: the App record.
- `AddForm`: validators, validateForm and formToApp.
- `Listing`: filter, sort, paginate and the view state.
- `Csv`: toCSV and its decoder.
- `Importing`: the import normalisation.
- `Theme`: the colour theme.
- `Store`: the stored list and the handlers that replace it.

State that the source updates in place is a class:

- `AddForm.ErrorPanel` holds the error elements of the form.
- `Listing.ViewState` is the `state` object.
- `Theme.ThemeState` holds the stored theme and the root's class.
- `Store.AppStore` is the list under the storage key.

Browser I/O becomes parameters:

- URL validity (`new URL(...)`) is `urlValid: string -> bool`.
- `crypto.randomUUID()` is `id` or `ids(i)`.
- `new Date().toISOString()` is `now` or `clock(i)`.
- Parsed JSON and the stored list are values passed in.

## Model

| member | source | states |
|---|---|---|
| Text.TrimStart | myFunctions.js:117-122 | trimStart never lengthens the text, and what it keeps does not start with a space |
| Text.TrimStartShape | myFunctions.js:117-122 | trimStart keeps a suffix and drops only white space |
| Text.TrimEnd | myFunctions.js:117-122 | trimEnd never lengthens the text, and what it keeps does not end with a space |
| Text.TrimEndShape | myFunctions.js:117-122 | trimEnd keeps a prefix and drops only white space |
| Text.Trim | myFunctions.js:117-122 | the result of trim has no space at either end |
| Text.TrimIsInfix | myFunctions.js:117-122 | trim returns an infix of the input with only white space before and after it |
| Text.TrimOfTrimmed | myFunctions.js:117-122 | trim leaves text without surrounding spaces unchanged, so trim is idempotent |
| Text.ToLower | myFunctions.js:182-183 | toLowerCase keeps the length, leaves no ASCII capital, and changes only capitals, each to its small letter |
| Text.Contains | myFunctions.js:183 | `includes`: a text contains every prefix of itself, and never a part longer than itself |
| Text.Join | myFunctions.js:301-306 | `Array.prototype.join`: the parts with the separator between each two; no parts give the empty string and one part gives itself |
| Text.ContainsIff | myFunctions.js:183 | includes holds exactly when some window of the text equals the part |
| Text.LexLe | myFunctions.js:188-191 | the code-point order standing for `localeCompare` at most 0: a prefix comes first, and a text that comes first has no larger first character |
| Text.LexTotal | myFunctions.js:188-191 | any two strings are comparable in the order standing for localeCompare |
| Text.LexTransitive | myFunctions.js:188-191 | that order is transitive |
| Text.LexAntisymmetric | myFunctions.js:188-191 | that order is antisymmetric |
| Html.EscapeChar | myFunctions.js:100-102 | a character is replaced exactly when it is one of the five special characters; an entity starts with '&' and holds no markup character |
| Html.EscapeHTML | myFunctions.js:100-102 | the output is at least as long as the input and contains no `<`, `>`, `"` or `'` |
| Html.EscapeAppend | myFunctions.js:100-102 | escaping works character by character: it distributes over concatenation |
| Html.UnescapeEscape | myFunctions.js:100-102 | decoding the five entities recovers the input, so escaping loses nothing |
| Html.UnescapeStep | myFunctions.js:100-102 | decoding one escaped character from the front of the text |
| Html.EscapeLengthIff | myFunctions.js:100-102 | the length is unchanged exactly when the input has no special character, and then the output is the input |
| Html.EscapeKeepsAmpersand | myFunctions.js:100-102 | escaped text of an input with a special character still contains a special character (an '&') |
| Html.EscapeIdempotentIff | myFunctions.js:100-102 | escaping twice equals escaping once exactly when the input has no special character: escapeHTML is not idempotent |
| Html.AmpersandIsEscapedAgain | myFunctions.js:100-102 | "&" escapes to "&amp;", and that escapes again to "&amp;amp;" |
| AddForm.ValidAppName | myFunctions.js:54 | `/^[A-Za-z]+$/`: a non-empty run of ASCII letters; such a name also passes the company pattern, has no digit and no surrounding space |
| AddForm.ValidCompany | myFunctions.js:55 | `/^[A-Za-z0-9]+$/`: a non-empty run of ASCII letters and digits; such a name has no white space at all |
| AddForm.Required | myFunctions.js:57 | `required`: a present value that is not blank once trimmed; an absent or empty value fails |
| AddForm.RequiredIff | myFunctions.js:57 | `required` holds for a present value exactly when it has a character that is not white space |
| AddForm.ValidAppNameShape | myFunctions.js:54 | a valid app name has no space and no digit, and trim leaves it unchanged |
| AddForm.Passes | myFunctions.js:117-130 | the check of each of the six fields on its trimmed value (domain raw): a passing name, company or summary is not blank, a passing domain or isFree is non-empty, and the website passes exactly when the URL check accepts its trimmed value |
| AddForm.ErrorPanel.constructor | myFunctions.js:96-99 | the form starts with the given error slots, all empty |
| AddForm.ErrorPanel.SetError | myFunctions.js:96-99 | setError writes the message only when the field has an error element; otherwise nothing changes |
| AddForm.ValidateForm | myFunctions.js:115-132 | true exactly when all six checks pass; the slots end as all six cleared and then each failing check's message written in order; the set of slots is unchanged; each slot holds its message when its check failed and is empty otherwise |
| AddForm.Message | myFunctions.js:125-130 | the message each failing check writes: a non-empty sentence ending in a full stop |
| AddForm.Check | myFunctions.js:125-130 | one check line: on failure the field's message is written and the flag cleared; on success nothing changes |
| AddForm.ClearErrors | myFunctions.js:124 | the forEach clears the listed slots one after another |
| AddForm.ClearSlotsShape | myFunctions.js:124 | clearing keeps the set of slots and empties exactly the listed ones |
| AddForm.ClearedReported | myFunctions.js:124 | before any message is written, all six slots are empty |
| AddForm.ReportsChain | myFunctions.js:125-130 | after the six checks, every slot that was checked and failed holds its message, and the others are empty |
| AddForm.ReportsShape | myFunctions.js:115-132 | whatever the slots held before, validateForm leaves the same slots, each holding its message if its check failed and the empty string otherwise |
| AddForm.FormToApp | myFunctions.js:147-161 | the record's name, company, website, summary and three media URLs are the trimmed form values, so they carry no surrounding spaces; the id and timestamp are the given ones, the domain the form's, and isFree the checked value |
| AddForm.SubmittedRecordIsValid | myFunctions.js:147-161 | a record made from a form that passed has a valid name, company and website, a non-blank summary, isFree and domain; its name, company, website, summary, logoUrl, audioUrl and videoUrl are all trimmed; the id and timestamp are the ones given |
| Listing.Filter | myFunctions.js:183-186 | filter never lengthens the list and keeps only elements that pass |
| Listing.FilterCount | myFunctions.js:183-186 | filter keeps each element that passes as often as it occurs, and drops each that fails |
| Listing.MatchesQuery | myFunctions.js:183 | the query test: the lower-cased query occurs in the lower-cased name or company; the empty query matches everything, and a matching query is no longer than the name or the company |
| Listing.InDomain | myFunctions.js:185 | the domain test: strict equality with the selected domain |
| Listing.MatchesFree | myFunctions.js:186 | the free/paid test: with 'Free', exactly the free records; with any other value, exactly the others |
| Listing.Selected | myFunctions.js:181-186 | a record passes the three filters, each switched off by an empty control: with all three empty every record passes, and a passing record has the selected domain and, under 'Free', is free |
| Listing.ByQuery | myFunctions.js:181-184 | with a non-empty query, exactly the records whose lower-cased name or company contains the lower-cased query, with their multiplicities; with an empty query every record |
| Listing.ByDomain | myFunctions.js:185 | with a domain selected, exactly the records of that domain; otherwise every record |
| Listing.ByFree | myFunctions.js:186 | with 'Free', exactly the free records; with any other non-empty value, exactly the others; otherwise every record |
| Listing.Matching | myFunctions.js:180-186 | exactly the records that pass all three filters, each as often as in the input |
| Listing.ModeOf | myFunctions.js:187-191 | each of the three named sort values selects its own order, and every other value selects newest first |
| Listing.InOrder | myFunctions.js:188-191 | two records tying on the mode's key are in order both ways, as a comparator returning 0 allows |
| Text.LexReflexive | myFunctions.js:188-191 | the order standing for localeCompare is reflexive |
| Listing.InOrderTotal | myFunctions.js:187-192 | any two records are ordered one way or the other under each of the four comparators |
| Listing.InOrderTransitive | myFunctions.js:187-192 | each comparator's order is transitive |
| Listing.Insert | myFunctions.js:187-192 | inserting adds exactly the one element to the contents |
| Listing.InsertSorted | myFunctions.js:187-192 | inserting into a sorted list keeps it sorted |
| Listing.SortBy | myFunctions.js:187-192 | sort returns a permutation of its input, sorted by the mode's comparator |
| Listing.SliceIndex | myFunctions.js:197 | slice's index normalisation lands between 0 and the length |
| Listing.Slice | myFunctions.js:197 | slice returns the contiguous run of the list between the two normalised indices, and nothing when the end is not after the start |
| Listing.Page | myFunctions.js:195-198 | a page is never longer than the list, nor, for a non-negative page size, than the page size |
| Listing.SliceWindow | myFunctions.js:197 | slice from a non-negative start is the window cut off at the end, at most n long |
| Listing.PageWindow | myFunctions.js:195-198 | page p (p at least 1) is the window starting at (p - 1) * pageSize, cut at the end of the list; it has at most pageSize items and none once the start is past the end |
| Listing.PagesArePrefix | myFunctions.js:195-198 | pages 1 to k, concatenated, are the first min(length, k * pageSize) items |
| Listing.ViewState.constructor | myFunctions.js:177 | the initial state: empty filters, newest first, page 1, page size 8 |
| Listing.ViewState.ApplyFilters | myFunctions.js:179-194 | the result holds exactly the records that pass every active filter, as often as in the list, sorted by the selected order (unknown values sort newest first) |
| Listing.ViewState.Paginate | myFunctions.js:195-198 | the current page is list[(page-1)*pageSize .. min(length, page*pageSize)], at most pageSize items |
| Listing.ViewState.RenderApps | myFunctions.js:213-228 | the count is the number of matching records; the empty notice shows exactly when there are none, and then no rows are drawn; otherwise the rows are the current page |
| Listing.ViewState.OnQueryInput | myFunctions.js:282 | the query becomes the trimmed input and the page resets to 1; nothing else changes |
| Listing.ViewState.OnDomainChange | myFunctions.js:287 | the domain becomes the selected value and the page resets to 1 |
| Listing.ViewState.OnFreeChange | myFunctions.js:289 | the free/paid filter becomes the selected value and the page resets to 1 |
| Listing.ViewState.OnSortChange | myFunctions.js:291 | the sort becomes the selected value and the page is kept |
| Listing.ViewState.OnPrev | myFunctions.js:293 | the page goes down by one only when it is above 1, and only then is the page redrawn; the page stays at least 1 |
| Listing.ViewState.OnNext | myFunctions.js:295 | the page goes up by one with no upper bound |
| Csv.Cell | myFunctions.js:303 | `a[h] ?? ''`: the property's text when present, the empty string when missing |
| Csv.HeaderLine | myFunctions.js:301 | the first line of the export: the ten header names joined by commas |
| Csv.Values | myFunctions.js:300-303 | one cell per header, in header order, each the record's property or '' when it is missing |
| Csv.DoubleQuotes | myFunctions.js:303 | doubling quotes never shortens the value, leaves a value without quotes as it is, and lengthens one with quotes |
| Csv.Quote | myFunctions.js:303 | an exported field starts and ends with a quote and is at least two longer than the value; a value without quotes is only wrapped |
| Csv.QuoteAll | myFunctions.js:303 | the `map` of the field template over a record's cells: one field per cell |
| Csv.RecordLine | myFunctions.js:303-304 | one record line: the quoted fields joined by commas; a single cell gives just its quoted field |
| Csv.QuoteAllCells | myFunctions.js:303 | the i-th exported field of a record is its i-th cell, quoted |
| Csv.Document | myFunctions.js:299-307 | the export of an empty list is the header line alone; otherwise it starts with the header line and a line feed |
| Csv.ToCSV | myFunctions.js:299-307 | the loop yields the header line and then one quoted line per record, joined by line feeds, and that text decodes back to every record's cells in order |
| Csv.QuotedBody | myFunctions.js:303 | the unquoting decoder consumes input for every field it reads |
| Csv.QuotedBodyRoundTrip | myFunctions.js:303 | reading a quoted body recovers the value and stops right after the closing quote |
| Csv.FieldRoundTrip | myFunctions.js:303 | a quoted field followed by anything but a quote reads back as its value |
| Csv.UnquoteQuote | myFunctions.js:303 | stripping the outer quotes and collapsing doubled quotes recovers the exported value |
| Csv.FieldsRoundTrip | myFunctions.js:303-304 | a record line reads back as its cells |
| Csv.RecordsRoundTrip | myFunctions.js:302-306 | record lines joined by line feeds read back as the records |
| Csv.DecodeDocument | myFunctions.js:299-307 | decoding an export gives every record's cells in order, whether or not the list is empty |
| Importing.Truthy | myFunctions.js:331-341 | the truthiness that the fallbacks to a default test: a truthy property is present, and a string property is truthy exactly when it is not empty |
| Importing.AsText | myFunctions.js:332-340 | a falsy or missing property gives '', a string property gives itself |
| Importing.Entry | myFunctions.js:330-341 | isFree is 'Paid' exactly for the string 'Paid' and 'Free' otherwise; name and company are the trimmed text of the element's property (empty when missing or falsy) and carry no surrounding spaces; the other six text fields are that text untrimmed; a truthy id or createdAt is kept and is otherwise the fresh id or time |
| Importing.EntryTextFields | myFunctions.js:332-340 | for each of the eight text fields, a missing or falsy property gives the empty string and a string property gives itself, trimmed for the name and company |
| Importing.MapFrom | myFunctions.js:330 | `data.map` either yields one result per element or fails naming the position of an element in the array |
| Importing.Normalize | myFunctions.js:329-342 | a non-array payload is rejected with the format error; a successful import has one record per element |
| Importing.MapOkIff | myFunctions.js:330 | mapping the elements succeeds exactly when none is null |
| Importing.MapEntries | myFunctions.js:330 | a successful map keeps the length and applies the conversion to each element in order |
| Importing.MapFirstNull | myFunctions.js:330 | a failed map throws at the first null element |
| Importing.ImportsIffNoNull | myFunctions.js:329-342 | an array imports exactly when none of its elements is null |
| Importing.ImportedRecords | myFunctions.js:330-341 | a successful import turns element i into Entry i, for every i, in order |
| Importing.ImportErrorIsFirstNull | myFunctions.js:330-342 | a failed import of an array reports its first null element |
| Theme.Effective | myFunctions.js:30 | the effective theme is dark exactly when nothing, the empty string or 'dark' is stored; any other non-empty stored value is the theme itself |
| Theme.Toggled | myFunctions.js:31 | the toggle yields light or dark, and light exactly from dark |
| Theme.ToggleTwice | myFunctions.js:29-32 | toggling twice returns to the start exactly for light and dark |
| Theme.ThemeState.ApplyTheme | myFunctions.js:23-28 | the light class is set exactly for 'light', and the theme is stored |
| Theme.ThemeState.ToggleTheme | myFunctions.js:29-32 | the stored theme becomes the toggle of the effective one, and the light class is set exactly when it was dark |
| Theme.ThemeState.Init | myFunctions.js:33-36 | with a toggle button on the page, the effective stored theme is applied, which makes the class agree with the stored value; without one, nothing changes |
| Store.ExportedCells | myFunctions.js:300-303 | a stored record exports all its fields except the id, in header order |
| Store.AppStore.Submit | myFunctions.js:164-167 | the record made from the form goes in front of the list exactly when validateForm passes; otherwise the list is unchanged |
| Store.AppStore.Import | myFunctions.js:325-343 | on success the normalised records replace the list; on failure the list is unchanged and the error is the normalisation's |
| Store.AppStore.Export | myFunctions.js:355-358 | an empty list gives "nothing to export"; otherwise the CSV of the list, which decodes back to every record's cells |
| Store.AppStore.Clear | myFunctions.js:364-366 | clearing leaves an empty list |

## Left out

- DOM work is not modelled: rendering rows (`appendAppRow`), the skeleton rows, toasts, header elevation, the details toggle, and driving the file input. There is no contract beyond the values the model returns.
- `liveValidate` writes per-keystroke hints into the error slots, and the form's reset handler clears the six slots; both are left out as UI.
- The first `validateForm` (lines 61-73) is left out. The second declaration overrides it, so it is never called.
- `toEmbed` and the URL validator are not modelled. They rely on the browser's URL parser. URL validity is the parameter `urlValid`.
- The 200 ms debounce of the search box and the delayed first render are left out. The model applies each handler at once.
- The storage I/O is not modelled: `JSON.parse` and `JSON.stringify` of the stored list, the fallback to an empty list when the stored text does not parse, `File.text()`, `download`, `confirm` and `location.reload`. The stored list is a field, and parsed JSON is a value.
- Import failures other than a non-array payload and a null element are left out, such as a file that is not JSON.
- Text.ToLower: changes ASCII capitals only. The source's toLowerCase also lowers other scripts.
- Listing.InOrder: reads `localeCompare` as plain code-point lexicographic order, not locale collation.
- Listing.SortBy: proves sortedness and permutation only. It is a stable insertion sort, and `Array.prototype.sort` is stable too, but stability itself is not proved.
- Importing.AsText: a truthy property that is not a string is represented by its `String(...)` text. For `id` and `createdAt` the source stores the raw value, and the model stores that text. This hides a failure of the source: an import whose `createdAt` is a number, as in `[{"appName":"A","createdAt":5},{"appName":"B","createdAt":6}]`, stores the numbers, and the next render's default sort calls `localeCompare` on a number and throws, so no count and no rows are drawn. The model sorts the texts "5" and "6" and renders the page.
- Csv.Values: rows are text-valued objects, so `String(a[h])` of a non-string value is not modelled. A missing property gives the empty field.
- Html.EscapeHTML: the default argument (`s = ''`) for an undefined input is not modelled. Every call in the source passes a string.
- AddForm.ErrorPanel.SetError: the `message || ''` fallback is not modelled, because every message passed is a string.
- Listing.ViewState.OnNext: no upper bound is modelled, because the source has none. Past the last page, `Paginate` yields no rows while the empty notice stays hidden, as `Listing.PageWindow` shows.
