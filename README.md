# CodeBank front end: a verified model of its core

CodeBank is a web front end for keeping code snippets in categories. This
project models in Dafny the parts of it that hold logic, and proves
properties of that model:

- **The search box** (`Search`). It waits 300 ms after typing and cancels the
  pending timer on every change. It skips blank and one-character queries,
  fetches all categories and all snippets, and filters them by a
  case-insensitive substring test. It highlights the query in titles and
  shows a count, a plural label and 100-character previews.
- **The snippet page** (`ViewCode`). It fetches a snippet and detects the
  language once. It splits the body on `"\n"` and highlights every line with
  that one language, numbering the lines from 1. It copies the raw body to the
  clipboard, with a "copied" flag that each copy's own timer resets after
  2000 ms.
- **The category list and the snippet list** (`Categories`, `Codes`, with
  what they share in `Listing`). A confirmed delete removes the record by id,
  keeping order. An edit modal patches the trimmed fields and refetches. There
  is a saving flag, and a cancel button that is disabled while saving.
- **The new-category form** (`AddCategory`, with the address pattern in
  `ImagePattern`). It checks the fields in order and tests the image field
  against `/(https?:\/\/[^\s]+\.(?:jpg|jpeg|png|gif|webp|svg))/gi`. It models
  the pattern object's `lastIndex` as ECMA-262 defines it.
- **The new-snippet form** (`AddCode`). It fetches the category and maps each
  failure to a message. It posts the trimmed snippet under the route's
  category id.

`Api` holds the records, requests, outcomes and notifications. It also holds
the mapping from fetch failure to message that the snippet page and the
new-snippet form share. `Text` and `Seqs` hold the string and list operations
the pages use: `trim`, `toLowerCase`, `includes`, `split`, `join`, `filter`
and the decimal numeral of a number.

The model treats the outside world as follows:

- Every request is appended to a `requests` log when it is sent. Its outcome
  (`Ok(data)` or `Err(failure)`) is passed to a separate method when it
  settles, so any interleaving of events can be expressed.
- Timers run on an abstract millisecond clock, advanced by `Tick(dt)`.
- The highlighting library is a pair of uninterpreted functions given to the
  page. The clipboard write and the confirmation dialog are boolean inputs.
- Toasts, success dialogs and navigations are logs of emitted messages.

Where the code and the written design of the system disagree, the model
follows the code:

- The design asks that a slower search be discarded once a newer one has been
  dispatched (last dispatched wins), through a request id. The search box has
  no request id. Whichever search settles last sets the results, even one for
  an older query. `Search.StaleResponseScenario` proves this for "ab"
  settling after "abc".
- The design says every error is caught and turned into visible state. The
  category list's fetch has no `catch`. A failed first load leaves the page on
  its spinner (`Categories.CategoriesPage.CategoriesFetched`).
- The design says a query shorter than 2 characters after trimming clears the
  earlier results and marks that a search was attempted. `performSearch`
  returns before doing either (src/components/Search.jsx:32-34), so the
  results and the searched flag stay as they were
  (`Search.SearchEngine.PerformSearch`, `Search.ShortQueryScenario`).
- The design says a failed search leaves an empty result. The `catch` only
  raises a toast (src/components/Search.jsx:61-63), so both lists keep the
  previous results (`Search.SearchEngine.Settle`).

## Model

| member | source | states |
|---|---|---|
| Search.FilterCategories | src/components/Search.jsx:45-49 | keeps exactly the categories whose lower-cased title contains the lower-cased query, with the query untrimmed; each is kept as often as in the input, in input order |
| Search.FilterCodes | src/components/Search.jsx:51-55 | keeps exactly the snippets whose title or body contains the lower-cased query, with multiplicity and order preserved |
| Search.MatchIgnoresCase | src/components/Search.jsx:45-48 | matching gives the same answer whatever the case of the query or the title |
| Search.UpperCaseQueryMatches | src/components/Search.jsx:45-48 | "CAT" finds "Category One" |
| Search.UntrimmedQueryMisses | src/components/Search.jsx:32-48 | "react " passes the trimmed gate but finds nothing in "React", while "react" finds it |
| Search.CategoryMatches | src/components/Search.jsx:47-49 | no contract of its own: a category is kept when its lower-cased title contains the lower-cased query; `FilterCategories` and `MatchIgnoresCase` state what it selects |
| Search.CodeMatches | src/components/Search.jsx:51-55 | no contract of its own: a snippet is kept when its lower-cased title or body contains the lower-cased query; `FilterCodes` states what it selects |
| Search.Ranges | src/components/Search.jsx:77 | the split always yields at least one piece, even for an empty text |
| Search.RangesOdd | src/components/Search.jsx:77 | there is one more piece between matches than there are matches |
| Search.RangesTile | src/components/Search.jsx:77 | the pieces lie end to end from the start of the text to its end |
| Search.RangesGap | src/components/Search.jsx:77 | no occurrence of the query starts inside a piece between matches |
| Search.RangesHit | src/components/Search.jsx:77 | every captured piece is an occurrence of the query at its own offset, as long as the query |
| Search.SlicesConcat | src/components/Search.jsx:77 | pieces cut at ranges that lie end to end join back into the text they cover |
| Search.SlicesOffset | src/components/Search.jsx:77 | the pieces before a piece are together as long as the text up to that piece's start |
| Search.Slices | src/components/Search.jsx:77 | one piece per range, each the part of the text between the range's ends |
| Search.Pieces | src/components/Search.jsx:77 | the text splits into one piece per range of the lower-cased split; `SlicesConcat`, `PieceMatches` and `HighlightSpec` state that the pieces join back to the text and which of them are matches |
| Search.MarkPart | src/components/Search.jsx:78-89 | a part keeps its piece's text and is marked exactly when the piece equals the query, ignoring case |
| Search.HighlightText | src/components/Search.jsx:75-90 | the text comes back unchanged exactly when the query is empty; otherwise there is at least one part; `HighlightSpec` and `HighlightLeftmost` state what the parts are |
| Search.GapPiece | src/components/Search.jsx:77-79 | a piece between matches never lower-cases to the lower-cased query |
| Search.HitPiece | src/components/Search.jsx:77-79 | a captured piece lower-cases to the lower-cased query |
| Search.PieceMatches | src/components/Search.jsx:77-79 | a piece compares equal to the query, ignoring case, exactly at the odd positions |
| Search.PartsArePieces | src/components/Search.jsx:77-88 | the parts hold the pieces in order, and a part is marked exactly when its piece equals the query ignoring case |
| Search.HighlightEmptyQuery | src/components/Search.jsx:76 | an empty query returns the text unchanged |
| Search.HighlightSpec | src/components/Search.jsx:75-90 | for a literal non-empty query the parts join back to the text, their count is odd, and a part is marked exactly at the odd positions |
| Search.HighlightLeftmost | src/components/Search.jsx:77-79 | marks fall on the leftmost non-overlapping occurrences: none starts in an unmarked part, and each marked part is an occurrence |
| Search.HighlightExample | src/components/Search.jsx:75-90 | "code" in "My Code Snippet" gives "My ", "Code" marked, " Snippet" |
| Search.ExampleRanges | src/components/Search.jsx:77 | the lower-cased "My Code Snippet" splits around "code" at 3..7 into three pieces |
| Search.TotalResults | src/components/Search.jsx:92-93 | the total is zero exactly when both lists are empty |
| Search.ResultLabel | src/components/Search.jsx:147 | the label is "results" exactly when the total is not 1, and "result" otherwise |
| Search.Preview | src/components/Search.jsx:244-245 | a body of at most 100 characters is shown whole; a longer one shows its first 100 characters followed by "..." |
| Search.SearchEngine.constructor | src/components/Search.jsx:8-14 | empty query and results, nothing searched, no timer, nothing sent |
| Search.SearchEngine.View | src/components/Search.jsx:119-147 | the panel is hidden exactly when nothing was searched and nothing is under way; a found count is the positive total |
| Search.SearchEngine.SetQuery | src/components/Search.jsx:17-29 | the same query again changes nothing; a new blank query clears the results and the searched flag and leaves no timer; any other new query replaces the timer with one for itself, 300 ms out; the one-pending-timer invariant is kept |
| Search.SearchEngine.PerformSearch | src/components/Search.jsx:31-43 | a query shorter than 2 after trimming changes nothing and sends nothing; otherwise the two fetches are sent and the search is marked under way |
| Search.SearchEngine.Tick | src/components/Search.jsx:24-26 | a timer that has come due fires once and searches with the current query; otherwise nothing changes |
| Search.SearchEngine.Settle | src/components/Search.jsx:36-66 | both fetches succeeding replace both lists, filtered by the query that search captured; any failure keeps the results and raises one error toast; the search ends either way |
| Search.SearchEngine.ClearSearch | src/components/Search.jsx:69-73 | the query becomes empty, the results empty, the searched flag false, and no timer is pending; fetches in flight stay |
| Search.DebounceScenario | src/components/Search.jsx:24-28 | typing "reac" then "react" within 300 ms dispatches one search, for "react", and sends one pair of fetches |
| Search.ShortQueryScenario | src/components/Search.jsx:31-34 | a one-character query sends nothing and keeps the earlier results |
| Search.StaleResponseScenario | src/components/Search.jsx:36-60 | the older search settling last overwrites the newer one's results |
| Api.FetchErrorMessageDistinguishes | src/pages/ViewCode.jsx:25-38 | equal toasts mean the same kind of failure (404, 403, other status, no response), and an other-status toast is the prefix followed by the server's message |
| Api.PageWordingsDistinguish | src/pages/AddCode.jsx:24-36 | the snippet wording and the category wording both keep the four kinds apart |
| Api.Classify | src/pages/ViewCode.jsx:26-38 | no contract of its own: a failure is no response, 404, 403 or another status with the server's message; `FetchErrorMessageDistinguishes` states that the toast tells these apart |
| Api.FetchErrorMessage | src/pages/AddCode.jsx:24-36 | no contract of its own: the page's wording for each kind of failure, and the generic message when there is no response; `FetchErrorMessageDistinguishes` states that equal toasts mean the same kind |
| Text.TrimEmptyIff | src/components/Search.jsx:18 | a query trims to nothing exactly when it is all whitespace |
| Text.TrimIdempotent | src/pages/Categories.jsx:77-78 | trimming a trimmed field changes nothing |
| Text.Trim | src/components/Search.jsx:32 | no contract of its own: the input without its leading and trailing whitespace; `TrimSpec`, `TrimEmptyIff` and `TrimIdempotent` state its properties |
| Text.TrimSpec | src/pages/Categories.jsx:77-78 | trim removes only whitespace, keeps a contiguous part of the input, and what it keeps neither starts nor ends with whitespace |
| Text.ContainsIff | src/components/Search.jsx:48 | `includes` holds exactly when the word occurs at some index |
| Text.Contains | src/components/Search.jsx:48 | no contract of its own: `includes`, as the leftmost occurrence existing; `ContainsIff` states when it holds |
| Text.IndexOf | src/components/Search.jsx:48 | the result is the leftmost occurrence at or after the start, or there is none at or after it |
| Text.SplitSpec | src/pages/ViewCode.jsx:52 | there is one more line than there are newlines, no line holds a newline, and joining the lines gives the body back |
| Text.Split | src/pages/ViewCode.jsx:52 | there is always at least one line; `SplitSpec` states the rest |
| Text.JoinSplit | src/pages/ViewCode.jsx:52 | lines without newlines, joined and split again, come back unchanged |
| Text.ParseNatToString | src/pages/ViewCode.jsx:58-60 | the decimal numeral of a line number reads back as that number |
| Text.NatToString | src/pages/ViewCode.jsx:58-60 | at least one character, all decimal digits, and no leading zero |
| Text.Lower | src/components/Search.jsx:45-48 | as long as the input, each character lower-cased in place, and no upper-case letter left |
| Seqs.Filter | src/components/Search.jsx:47-55 | keeps exactly the accepted elements, each as often as in the input, as a subsequence |
| Seqs.FilterAll | src/pages/Categories.jsx:60 | filtering with a predicate every element meets changes nothing |
| ViewCode.ShownLanguage | src/pages/ViewCode.jsx:50 | a missing or empty guess becomes "plaintext", any other guess is kept |
| ViewCode.RenderLines | src/pages/ViewCode.jsx:53-61 | record `i` holds the number first + i and the highlighting of line `i` in the one language |
| ViewCode.Render | src/pages/ViewCode.jsx:47-62 | no contract of its own: the detected language and the numbered, highlighted lines of the body; `RenderSpec` states their properties |
| ViewCode.LineHtml | src/pages/ViewCode.jsx:53-61 | no contract of its own: one line's markup, the number then the highlighted content; `LineNumberReadsBack` states that the number reads back |
| ViewCode.Html | src/pages/ViewCode.jsx:62 | no contract of its own: the per-line markup joined with nothing between; `HtmlAppend` states how it grows line by line |
| ViewCode.RenderSpec | src/pages/ViewCode.jsx:47-62 | one record per line, empty and trailing lines included; line `i` is numbered `i + 1` and highlighted with the single detected language; the lines join back to the body |
| ViewCode.HtmlAppend | src/pages/ViewCode.jsx:58-62 | the markup is the per-line markup in line order, with nothing between |
| ViewCode.LineNumberReadsBack | src/pages/ViewCode.jsx:58-60 | a line's markup carries its number as a decimal numeral that reads back as the number |
| ViewCode.ThreeLines | src/pages/ViewCode.jsx:52-61 | "a\n\nb" renders as three lines, the second numbered 2 and empty |
| ViewCode.TimersBounded | src/pages/ViewCode.jsx:73 | timers still pending after time passes fire within 2000 ms of the new time |
| ViewCode.TimersKept | src/pages/ViewCode.jsx:73 | when no timer has come due, one is still pending |
| ViewCode.TimersAfter | src/pages/ViewCode.jsx:71-73 | after the clock moves on, the pending copy timers fire within 2000 ms of the new time, a flag still set has a timer left, and 2000 ms after the copy the flag is cleared |
| ViewCode.ViewCodePage.constructor | src/pages/ViewCode.jsx:13-23 | mounting sends the fetch of `/code/{id}` and shows the spinner |
| ViewCode.ViewCodePage.RenderEffect | src/pages/ViewCode.jsx:47-66 | an empty body renders nothing; otherwise the language and the markup are those of the rendering |
| ViewCode.ViewCodePage.FetchSettled | src/pages/ViewCode.jsx:20-45 | a snippet is stored and rendered; a failure raises the toast for its kind and navigates to `/categories/`; loading ends either way |
| ViewCode.ViewCodePage.HandleCopy | src/pages/ViewCode.jsx:68-77 | a successful write puts the raw body on the clipboard, sets the flag, raises the success toast and schedules a reset 2000 ms out; a failure only raises "Failed to copy code." |
| ViewCode.ViewCodePage.Tick | src/pages/ViewCode.jsx:73 | due timers fire and clear the flag; after 2000 ms with no new copy the flag is off; the invariant that a set flag has a pending reset within 2000 ms is kept |
| ViewCode.CopyTwiceScenario | src/pages/ViewCode.jsx:71-73 | copying at 0 ms and at 1500 ms: the flag is still on at 1999 ms and off at 2000 ms, because the first copy's timer is never cancelled |
| Listing.RemoveById | src/pages/Categories.jsx:60 | keeps exactly the records whose id differs, each as often as before, in order |
| Listing.RemoveByIdCons | src/pages/Codes.jsx:66 | removal goes record by record: a record stays exactly when its id differs |
| Listing.RemoveByIdIdempotent | src/pages/Codes.jsx:66 | removing an id nobody has changes nothing, so removing twice is removing once |
| Listing.CountSuffix | src/pages/Categories.jsx:136 | empty exactly for a count of 0; otherwise a space, then the count in parentheses |
| Listing.CountSuffixReadsBack | src/pages/Codes.jsx:145 | the digits between the parentheses read back as the count |
| Listing.FormCompleteIff | src/pages/Categories.jsx:76-85 | a form is refused exactly when one of its fields is all whitespace |
| Listing.FormComplete | src/pages/Categories.jsx:81-85 | no contract of its own: both trimmed fields are non-empty; `FormCompleteIff` states that only an all-whitespace field makes a form incomplete |
| Categories.CategoriesPage.constructor | src/pages/Categories.jsx:22-37 | mounting sends the list fetch and shows the spinner |
| Categories.CategoriesPage.ModalOpen | src/pages/Categories.jsx:215 | the modal shows exactly while a record is being edited |
| Categories.CategoriesPage.CategoriesFetched | src/pages/Categories.jsx:28-33 | a list replaces the shown one and ends loading; a failure changes nothing |
| Categories.CategoriesPage.HandleDelete | src/pages/Categories.jsx:39-53 | a confirmed dialog sends the delete of `/categories/{id}`; a dismissed one sends nothing |
| Categories.CategoriesPage.DeleteSettled | src/pages/Categories.jsx:52-63 | success removes every record with that id from the current list and shows the dialog naming it; failure keeps the list and raises "Failed to delete category: " and the error |
| Categories.CategoriesPage.HandleEdit | src/pages/Categories.jsx:67-69 | the modal opens on that record |
| Categories.CategoriesPage.Cancel | src/pages/Categories.jsx:246-250 | closes the modal unless a save is under way |
| Categories.CategoriesPage.BackdropClick | src/pages/Categories.jsx:266-269 | closes the modal, even while a save is under way |
| Categories.CategoriesPage.SubmitUpdate | src/pages/Categories.jsx:71-88 | a blank trimmed field raises "Please fill in all required fields." and sends nothing; otherwise the trimmed title and image are patched onto the open record |
| Categories.CategoriesPage.PatchSettled | src/pages/Categories.jsx:87-100 | success closes the modal, shows the dialog and refetches the list; failure raises "Failed to update category: " and the error; the save ends either way |
| Categories.SaveEnds | src/pages/Categories.jsx:71-100 | whatever came before, a save under way has a patch in flight, so it ends when that patch settles, however it settles |
| Categories.CategoryPath | src/pages/Categories.jsx:53 | no contract of its own: the path `/categories/{id}` a delete or a patch goes to |
| Categories.Heading | src/pages/Categories.jsx:134-136 | no contract of its own: "My Categories" and the count suffix; `HeadingOfTwo` and `CountSuffix` state what it shows |
| Categories.DeleteScenario | src/pages/Categories.jsx:60 | deleting the middle one of three leaves the other two in order, under the heading "My Categories (2)" |
| Categories.RemoveMiddle | src/pages/Categories.jsx:60 | removing the middle record's id leaves the first and the last |
| Categories.HeadingOfTwo | src/pages/Categories.jsx:134-136 | the heading of two categories is "My Categories (2)" |
| Categories.BackdropDuringSaveScenario | src/pages/Categories.jsx:248-268 | during a save, cancel leaves the modal open, the backdrop closes it, and the save is still under way |
| Codes.CodesPage.constructor | src/pages/Codes.jsx:21-46 | mounting sends the fetch of `/codes/{category id}` and shows the spinner |
| Codes.CodesPage.ModalOpen | src/pages/Codes.jsx:223 | the modal shows exactly while a record is being edited |
| Codes.CodesPage.CodesFetched | src/pages/Codes.jsx:29-42 | a list replaces the shown one; a failure keeps it and raises "Failed to fetch codes: " and the error; loading ends either way |
| Codes.CodesPage.HandleDelete | src/pages/Codes.jsx:48-60 | a confirmed dialog sends the delete of `/codes/{id}`; a dismissed one sends nothing |
| Codes.CodesPage.DeleteSettled | src/pages/Codes.jsx:58-70 | success removes every record with that id from the current list and shows the dialog naming it; failure keeps the list and raises "Failed to delete code: " and the error |
| Codes.CodesPage.HandleEdit | src/pages/Codes.jsx:73 | the modal opens on that record |
| Codes.CodesPage.Cancel | src/pages/Codes.jsx:255-259 | closes the modal unless a save is under way |
| Codes.CodesPage.BackdropClick | src/pages/Codes.jsx:276-279 | closes the modal, even while a save is under way |
| Codes.CodesPage.SubmitUpdate | src/pages/Codes.jsx:75-92 | a blank trimmed field raises "Please fill in all required fields." and sends nothing; otherwise the trimmed title and body are patched onto the open record |
| Codes.CodesPage.PatchSettled | src/pages/Codes.jsx:91-100 | success raises "Code updated!", closes the modal and refetches the category's list; failure raises "Failed to update code: " and the error; the save ends either way |
| Codes.SaveEnds | src/pages/Codes.jsx:75-100 | whatever came before, a save under way has a patch in flight, so it ends when that patch settles, however it settles |
| Codes.CodesPath | src/pages/Codes.jsx:34 | no contract of its own: the path `/codes/{id}` the list is fetched from |
| Codes.Heading | src/pages/Codes.jsx:143-145 | no contract of its own: "My Codes" and the count suffix; `CountSuffix` and `CountSuffixReadsBack` state what it shows |
| Codes.BlankIsIncomplete | src/pages/Codes.jsx:81-85 | a body of only blank characters makes the form incomplete |
| Codes.BlankBodyScenario | src/pages/Codes.jsx:85-89 | a blank body sends nothing, keeps the modal open and raises one toast |
| Codes.TypedIsComplete | src/pages/Codes.jsx:80-83 | "loop " and "for" are complete and trim to "loop" and "for" |
| Codes.SaveRefetchScenario | src/pages/Codes.jsx:91-95 | the patch goes to the snippet's path and the refetch to the route category's path |
| ImagePattern.SchemeEnd | src/pages/AddCategory.jsx:13 | `https://` or `http://` in any case at the position, and the index after it, trying the `s` first |
| ImagePattern.ExtensionLength | src/pages/AddCategory.jsx:13 | an extension of that length occurs at the position, or none of the six does |
| ImagePattern.RunEnd | src/pages/AddCategory.jsx:13 | the greedy non-whitespace run ends at the first whitespace character or the end |
| ImagePattern.Backtrack | src/pages/AddCategory.jsx:13 | no contract of its own: the run is given back character by character until a dot followed by an extension; `BacktrackSound` and `BacktrackComplete` state what it finds |
| ImagePattern.MatchAt | src/pages/AddCategory.jsx:13 | no contract of its own: the scheme, the greedy run and the backtrack at one position; `MatchAtIff` states when it matches |
| ImagePattern.HasImageAddress | src/pages/AddCategory.jsx:13 | no contract of its own: the text holds an address of the pattern's shape somewhere; `ExecSpec` ties `test` from 0 to it |
| ImagePattern.BacktrackSound | src/pages/AddCategory.jsx:13 | a match found by giving back characters has its dot inside the run, followed by an extension |
| ImagePattern.BacktrackComplete | src/pages/AddCategory.jsx:13 | every dot in the run that is followed by an extension is found, and the match taken ends after the last such dot |
| ImagePattern.MatchAtIff | src/pages/AddCategory.jsx:13 | the pattern matches at a position exactly when an address of the right shape starts there |
| ImagePattern.FirstMatchIff | src/pages/AddCategory.jsx:26 | the search from a start finds a match exactly when an address starts at or after it |
| ImagePattern.FirstMatch | src/pages/AddCategory.jsx:26 | no contract of its own: the match at the first start position that has one; `FirstMatchIff` and `FirstMatchShape` state what it finds |
| ImagePattern.FirstMatchShape | src/pages/AddCategory.jsx:26 | a match found from a start ends where an address that starts at or after that start ends |
| ImagePattern.Exec | src/pages/AddCategory.jsx:26 | no contract of its own: one `test` of the global pattern from `lastIndex`; `ExecSpec` states its result and the new `lastIndex` |
| ImagePattern.ExecSpec | src/pages/AddCategory.jsx:26 | `test` succeeds exactly when an address starts at or after `lastIndex`; from 0, exactly when the text holds one; a success leaves `lastIndex` past the old one, at the end of an address that starts at or after it; a failure resets `lastIndex` to 0 |
| ImagePattern.ExecAtEnd | src/pages/AddCategory.jsx:26 | `test` from the end of the text fails |
| ImagePattern.SecondTestFails | src/pages/AddCategory.jsx:26 | a text that is one address end to end fails a second `test` on the same object |
| ImagePattern.ShortAddress | src/pages/AddCategory.jsx:13 | "http://a.png" matches from 0, leaving `lastIndex` at 12 |
| ImagePattern.ImageRegex.constructor | src/pages/AddCategory.jsx:13 | a new pattern object starts with `lastIndex` 0 |
| ImagePattern.ImageRegex.Test | src/pages/AddCategory.jsx:26 | trying the start positions in order gives the result and the new `lastIndex` of the `test` semantics |
| AddCategory.Validate | src/pages/AddCategory.jsx:18-29 | a blank field is reported first; otherwise a field with no image address is reported; otherwise nothing is, each exactly in its case |
| AddCategory.PostOf | src/pages/AddCategory.jsx:30-37 | no contract of its own: the post of the trimmed title and image to `/categories`; `AddCategoryPage.Submit` states when it is sent |
| AddCategory.ShortFormValid | src/pages/AddCategory.jsx:18-29 | "Go" / "http://a.png" trims to itself, is complete and valid, and matches the whole image field |
| AddCategory.AddCategoryPage.constructor | src/pages/AddCategory.jsx:9-13 | no error, a fresh pattern object at `lastIndex` 0, empty inputs, nothing sent |
| AddCategory.AddCategoryPage.Type | src/pages/AddCategory.jsx:18-19 | the inputs hold what was typed |
| AddCategory.AddCategoryPage.SetError | src/pages/AddCategory.jsx:12-13 | the error is set; a different message renders again and so rebuilds the pattern object |
| AddCategory.AddCategoryPage.Submit | src/pages/AddCategory.jsx:15-37 | a blank field sets that error and sends nothing, keeping the pattern object and its `lastIndex` when that error was already shown and otherwise rebuilding it at 0; otherwise `test` from the object's `lastIndex` decides between "Invalid image URL" and posting the trimmed fields to `/categories`; from `lastIndex` 0 this agrees with `Validate` |
| AddCategory.AddCategoryPage.PostSettled | src/pages/AddCategory.jsx:36-48 | success shows the dialog, empties the inputs and goes to `/categories/`; failure only raises the toast, leaving the error and the pattern object |
| AddCategory.ResubmitAfterFailureScenario | src/pages/AddCategory.jsx:13-48 | a valid form whose post failed is refused with "Invalid image URL" when submitted again, and posted on the third try |
| AddCode.PayloadClean | src/pages/AddCode.jsx:50-62 | a complete form posts non-empty, already-trimmed title and body, with the route's category id |
| AddCode.PayloadOf | src/pages/AddCode.jsx:50-62 | no contract of its own: the trimmed title and body with the route's category id; `PayloadClean` states that they are clean |
| AddCode.CategoryPath | src/pages/AddCode.jsx:21 | no contract of its own: the path `/category/{id}` the category is fetched from |
| AddCode.CodesPath | src/pages/AddCode.jsx:65 | no contract of its own: the path `/codes/{id}` the snippet is posted to and the page goes to |
| AddCode.AddCodePage.constructor | src/pages/AddCode.jsx:13-21 | mounting sends the fetch of `/category/{id}` and shows the spinner |
| AddCode.AddCodePage.CategoryFetched | src/pages/AddCode.jsx:18-41 | the category is stored; a failure raises the toast for its kind and navigates to `/categories/`; loading ends either way |
| AddCode.AddCodePage.Type | src/pages/AddCode.jsx:50-51 | the inputs hold what was typed |
| AddCode.AddCodePage.Submit | src/pages/AddCode.jsx:47-65 | a blank field sets "Please fill in all required fields." and sends nothing; otherwise the trimmed snippet is posted to `/codes/{category id}` |
| AddCode.AddCodePage.PostSettled | src/pages/AddCode.jsx:64-76 | success shows the dialog, empties the inputs and goes to `/codes/{category id}`; failure sets "Failed to add code. Please try again." |
| AddCode.TypedFormComplete | src/pages/AddCode.jsx:50-53 | a typed title and body make a complete form |
| AddCode.MissingCategoryScenario | src/pages/AddCode.jsx:24-40 | a 404 raises "Category not found." once, goes back to `/categories/` and ends loading |
| AddCode.ErrorOutlivesSuccessScenario | src/pages/AddCode.jsx:64-76 | after a failed post, a successful one navigates away with the old error still set |

## Left out

- Network transport, `Promise.all`, the axios instance and its interceptors: each request is a logged value, and its result is an input.
- The order in which the two search fetches settle is not modelled: `Settle` takes both outcomes together, as `Promise.all` delivers them.
- Swal dialogs, toast rendering, JSX markup, the breadcrumb and the `Loading` component: dialogs and toasts are logged messages, a confirmation is a boolean input, and the spinner is the `loading` flag.
- The highlighting library: `detect` and `highlight` are uninterpreted functions. HTML escaping is the library's job.
- The DOM, `codeRef` and `navigator.clipboard`: `innerHtml` stands for what the render effect writes. A clipboard write is a success or failure input.
- ViewCode.ViewCodePage.RenderEffect: the model runs the effect in the same step as the fetch result, which assumes React batches `setCode` and `setLoading(false)` so that the code element exists.
- ViewCode.ViewCodePage.HandleCopy: it is only defined once a snippet was fetched. Before that, the source would copy `undefined`.
- Search.HighlightText: only queries without regular-expression metacharacters are covered. The source builds a `RegExp` from the query without escaping it, and the model captures neither of the two behaviours that follow for other queries. Some queries, such as "c++", "(" or "a[", are not valid patterns, and the `RegExp` constructor throws while the result list renders (src/components/Search.jsx:186, 240). Others are read as patterns: "." marks every character, "a|b" marks either letter, and "a(b)" adds an extra capture to the split.
- Case mapping is ASCII only, in filtering, highlighting and the pattern's `i` flag. Lengths and `lastIndex` count characters, not UTF-16 code units.
- Re-renders caused by a parent component are not modelled. On the new-category form, such a re-render would also rebuild the pattern object.
- The new-category and new-snippet forms can be submitted again while a post is in flight. Posts are counted, not matched to their submissions.
- `console.log` and `console.error` calls, the auth pages, the navigation bar, the footer, the home and not-found pages, the router and the bootstrap are outside the core.

## Findings

| source | as written | input that shows it | evidently intended | confidence | as-written member | corrected member |
|---|---|---|---|---|---|---|
| src/pages/AddCategory.jsx:13 | The image pattern carries the `g` flag, so `test` resumes at `lastIndex`. A successful test leaves `lastIndex` at the end of the match. A failed post raises only a toast, so the page does not render again and the same pattern object is kept. | Title "Go", image "http://a.png", post fails, submit again unchanged: `test` starts at 12, fails, and the form says "Invalid image URL" for a valid address. | The address check depends only on the image field, as a pattern without `g` would make it. | not executed | AddCategory.ResubmitAfterFailureScenario | AddCategory.Validate |
