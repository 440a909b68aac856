# Quote manager store — a Dafny model

`dom-manipulation/script.js` is a browser page script that keeps a list of
quotes, each a `{text, category}` record, in a global variable `quotes`. It
shows a random quote (optionally only of one category), adds quotes from a
form, imports quotes from a JSON file and merges a few posts from a mock
server. It mirrors the list in the browser's local storage.

This project models that list and the logic around it, without the browser.

- `wrappers.dfy` (`Wrappers`): the `Option` type. It stands for an absent
  storage entry, a failed parse or fetch, and "no quote".
- `text.dfy` (`Text`): ECMAScript `String.prototype.trim`, which removes the
  WhiteSpace and LineTerminator characters at both ends.
- `quotes.dfy` (`Quotes`): the `Quote` record, the three default quotes, the
  load-time choice between the stored list and the defaults, and the add-form
  check.
- `selection.dfy` (`Selection`): the category in effect, the category filter,
  the index `floor(r * len)` drawn from a random number `r` in `[0, 1)`, and
  the text shown.
- `categories.dfy` (`Categories`): the distinct categories in first-seen
  order, as a JavaScript `Set` yields them, and the selector's option values
  with `"all"` first.
- `server.dfy` (`Server`): turning the first three server posts into quotes
  filed under `"Server"`, and putting them in front of the list.
- `store.dfy` (`Store`): the class `QuoteStore`. It holds the list and the
  storage entries `"quotes"` and `"lastFilter"` as fields. Its methods load,
  show, add, import and sync, and each says exactly what the new state is.
  `FirstVisit` is a client method: a first visit whose assertions follow from
  the contracts alone.

The random number, the parsed JSON and the server's response are parameters.
The stored `"quotes"` entry is kept already parsed, as `Option<seq<Quote>>`.

A sync (script.js:113-115) puts the first three posts in front of the list
and does no deduplication, so every sync that receives posts makes the list
longer. `Server.MergeTwice` proves that a second sync with the same non-empty
data changes the list again.

## Model

| member | source | states |
|---|---|---|
| Quotes.DefaultQuotes | dom-manipulation/script.js:24-30 | exactly three quotes, filed under Inspiration, Life and Philosophy in that order, none with an empty field |
| Quotes.Loaded | dom-manipulation/script.js:14-16 | a stored list is taken unchanged; with nothing stored the list is three quotes in the order Inspiration, Life, Philosophy |
| Store.QuoteStore.constructor | dom-manipulation/script.js:3-4 | before loading, the list is empty and storage holds whatever the page found |
| Store.QuoteStore.LoadQuotes | dom-manipulation/script.js:14-18 | the list becomes the stored list or, with nothing stored, exactly the defaults, and storage then holds the list |
| Text.Trim | dom-manipulation/script.js:48-49 | the result has no white space at either end; it is empty exactly when the input is all white space; otherwise it is the input between its leading and trailing white space |
| Text.TrimSurrounded | dom-manipulation/script.js:48-49 | any white space around a string with none at its ends is removed and nothing else: trim(a + m + b) == m |
| Text.TrimIdempotent | dom-manipulation/script.js:48-49 | trimming a trimmed string changes nothing |
| Quotes.Validated | dom-manipulation/script.js:47-51 | the quote is refused exactly when the text or the category is all white space; when accepted, its fields are the trimmed inputs, non-empty, with no white space at either end |
| Quotes.ValidatedStable | dom-manipulation/script.js:47-53 | an accepted quote, entered again, is accepted and unchanged |
| Store.QuoteStore.AddQuote | dom-manipulation/script.js:47-54 | refused: list and storage unchanged; accepted: the new list is the old one followed by exactly the one trimmed quote, and storage holds it |
| Selection.SelectedCategory | dom-manipulation/script.js:33 | the selector's value when there is a selector with a non-empty value, otherwise "all" |
| Selection.OfCategory | dom-manipulation/script.js:36 | every kept quote is in the list with the category asked for; every such quote is kept, as often as it occurs, and no other |
| Selection.OfCategoryAppend | dom-manipulation/script.js:36 | filtering distributes over concatenation, so the kept quotes stay in list order |
| Selection.OfCategoryIdempotent | dom-manipulation/script.js:36 | filtering a filtered list changes nothing |
| Selection.Filtered | dom-manipulation/script.js:34-36 | "all" gives the whole list; any other category keeps exactly the quotes of that category, all of them |
| Selection.PickIndex | dom-manipulation/script.js:38 | for 0 <= r < 1 and a non-empty list, floor(r * len) is a valid index; for an empty list it is 0 |
| Selection.PickIndexReaches | dom-manipulation/script.js:38 | every index below len is floor(r * len) for r = k / len in [0, 1) |
| Selection.RandomQuote | dom-manipulation/script.js:34-38 | there is a quote exactly when the filtered list is non-empty; it is one of the filtered quotes, so it is in the list and, for a category other than "all", of that category |
| Selection.RandomQuoteReaches | dom-manipulation/script.js:34-38 | every quote the filter admits is the one shown for some r in [0, 1) |
| Selection.Display | dom-manipulation/script.js:39 | the text of the quote when it has one; "No quotes available." when there is no quote (also when the quote's text is empty) |
| Store.QuoteStore.ShowRandomQuote | dom-manipulation/script.js:32-43 | the text shown is that of the quote picked from the filtered list by floor(r * len); "lastFilter" is set to the category only when it is not "all"; the list and its storage are untouched |
| Categories.Distinct | dom-manipulation/script.js:65 | no duplicates, and exactly the elements of the input |
| Categories.DistinctFirstSeen | dom-manipulation/script.js:65 | of two results, the earlier one occurs first in the input |
| Categories.DistinctUnique | dom-manipulation/script.js:65 | any list of exactly the input's elements in first-seen order is the result, so the three properties above define it |
| Categories.DistinctCategories | dom-manipulation/script.js:65 | built on the helper `CategoryList`, which is `quotes.map(q => q.category)`: no duplicates; a string is in it exactly when some quote has that category; categories are in the order in which they first occur in the list |
| Categories.CategoryOptions | dom-manipulation/script.js:65-67 | the option values are "all" followed by the distinct categories |
| Categories.OptionsDistinctIff | dom-manipulation/script.js:65-67 | the option values repeat exactly when some quote is filed under the category "all" |
| Categories.DistinctDefaults | dom-manipulation/script.js:65-67 | the defaults offer Inspiration, Life and Philosophy, in that order |
| Categories.OfferedCategoryShows | dom-manipulation/script.js:33-36 | choosing any offered category option, read through the "all" fallback, shows a quote; for a category other than the empty one and "all" that quote is of the chosen category |
| Store.QuoteStore.ImportQuotes | dom-manipulation/script.js:95-103 | parsed: the new list is the old one followed by the imported records, and storage holds it; not parsed: list and storage unchanged |
| Server.ServerQuotes | dom-manipulation/script.js:113 | min(3, number of posts) quotes; the i-th has the i-th post's title as text and the category "Server" |
| Server.ServerQuotesIgnoresRest | dom-manipulation/script.js:113 | posts after the third make no difference |
| Server.Merged | dom-manipulation/script.js:113-115 | length min(3, posts) + old length; the old list is a suffix, unchanged, and the server quotes are the prefix |
| Server.MergeTwice | dom-manipulation/script.js:113-115 | syncing twice with the same posts puts their quotes in front twice; with any post the list changes again, so the sync is not idempotent |
| Store.QuoteStore.SyncWithServer | dom-manipulation/script.js:109-117 | with a response the list becomes the server quotes followed by the old list, and storage holds it; when the fetch or decoding fails nothing changes |

## Left out

- Page rendering, element lookup, the `<option>` markup and labels, form field clearing, and the `onclick`/`onload` wiring (script.js:7-12, 39, 45, 57-58, 62-67). These are UI. The option values and the shown text are modelled as strings.
- `restoreLastFilter` and `filterQuotes` (script.js:70-80). They only put a value into the selector and call `showRandomQuote`, which is modelled.
- Local storage, as opposed to its contents. The entries `"quotes"` and `"lastFilter"` are fields of the store. The stored list is kept parsed. So an entry holding the empty string, which the code treats like a missing one, is not representable. A stored text that fails to parse, which makes `loadQuotes` throw, is not represented either. Nor is a stored text that parses to something other than an array (`null`, an object): `loadQuotes` takes such a value as the list, and showing a quote then throws or shows the fallback. Failure to write storage is not modelled.
- JSON text. `exportToJson` (script.js:82-90) and the file reading in `importFromJsonFile` are left out. An import is given as already parsed records, or as a failure. The code does not check the shape of imported records. A JSON value that is not an array either throws, which counts as a failure here, or, for a string, is spread character by character. The model only sees records. The export-then-import round trip depends on JSON fidelity: `FirstVisit` shows that re-importing the list leaves it doubled.
- The network. The response of `fetch` is a parameter. A failure is `None`: the code does not catch it, so its returned promise rejects and the list stays as it was. Posts without a `title` are not represented. Nothing in this file schedules `syncWithServer` on a timer.
- Selection.PickIndex: the product r * len is exact here. In the code it is a floating-point multiplication, so the proof that the index is within bounds does not cover rounding. Nothing about the distribution of `Math.random` is modelled.
- Categories.OfferedCategoryShows: the option markup (script.js:67) writes each category into `value="..."` without escaping, so a category containing `"` or a character reference such as `&amp;` gets a different option value and cannot be chosen; `CategoryOptions` and `OfferedCategoryShows` describe only categories the markup carries unchanged.
- Strings are sequences of Unicode scalar values, while JavaScript strings are sequences of UTF-16 code units, so a lone surrogate (which imported or stored JSON can hold) has no counterpart here. This does not change trimming, emptiness or `===` on the strings that can be represented.
- `alert` messages. They are presentation only.
