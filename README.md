# SnippetSage core, modelled in Dafny

SnippetSage stores code snippets for signed-in users. This project models the parts of its
backend and frontend that decide what happens to a snippet and to a session:

- the backend:
  - the request-body validator `validateSnippet`;
  - the cached-record shape check `isValidCachedSnippet`;
  - the cache-key builder `buildCacheKey`;
  - the error classes;
  - the snippet service (create, list, get, update, delete over the snippet collection, scoped by owner);
  - the `checkAuth` bearer-token middleware.
- the frontend:
  - the `snippet` and `auth` store slices, with the `selectIsAuth` selector;
  - the tags the snippet listing provides to the request cache;
  - the optimistic update `createSnippet` applies to the cached home listing;
  - the pagination bar's page window and its links;
  - the home page's `hexToRgb`/`rgbToHex` colour helpers.

Layout, one module per source file:

| module | file |
|---|---|
| `Wrappers` | `Option` and `Result` |
| `Js` | JavaScript values and built-ins the core relies on: `typeof`, truthiness, `Array.isArray`, `String(v)`, `trim`, `split(' ')`, `toLowerCase` on ASCII letters |
| `QueryParams` | the listing query parameters with their defaults (page 1, limit 20) |
| `ValidateSnippet` | the validator, as a method with the source's chain of checks. A table of the six rules defines the expected errors independently |
| `ValidateCachedSnippet` | the shape check |
| `BuildCacheKey` | the key builder as written, plus the intended single-snippet key (see Findings) |
| `Errors` | `ValidationError` and `NotFoundError` |
| `SnippetService` | see below |
| `CheckAuth` | see below |
| `SnippetSlice`, `AuthSlice` | one class per slice; every reducer is a method that reassigns the fields it changes |
| `SnippetApi` | `providesTags` and the patch, confirm and undo recipes. A `ListCache` class holds the cached listings by query arguments |
| `PaginationBar` | the page-number loop as a method, proved against the closed-form window, plus the rendered items |
| `HexColor` | the two helpers, with JavaScript's `parseInt(s, 16)`, `>>`/`&` on 32-bit integers, `toString(16)` and `padStart(2, '0')` written out |

- **`SnippetService`** is a `SnippetStore` class.
  - It holds the collection as a sequence of records and the next fresh identifier.
  - Its methods are the service's five operations.
  - It models the document store's behaviour the service depends on:
    - required non-empty `userId`, `title` and `code` on create;
    - casting of the `tags` array to strings;
    - owner-scoped lookups;
    - newest-first sorting;
    - skip and limit.
- **`CheckAuth`**:
  - `Decide` takes the header, the secret and the token verifier and returns the outcome.
  - `Run` is the middleware acting on request, response and `next` objects.

The model follows the code as written:

- Full validation requires all six fields to be present with the right type.
- An empty `title` or `code` passes the validator. The store's required-field rule then rejects it on create (`EmptyTitleRejectedByStore`). It is not a `ValidationError`.
- The listing's page size defaults to 20.
- The listing returns only the page of snippets, without a total count.
- The service does not consult the cache.
- `updateSnippet` passes the request data straight to the store. A `userId` in that data therefore moves the record to another owner (`UpdateCanReassignOwner`).
- The single-snippet cache key does not contain the identifier (see Findings).

## Model

| member | source | states |
|---|---|---|
| ValidateSnippet.Validate | backend/src/utils/validateSnippet.ts:4-33 | the result is `ok` exactly when no rule fails. Otherwise it carries the failing rules' messages in the checks' order; in full mode every rule applies, in partial mode only rules for keys present |
| ValidateSnippet.CollectedAll | backend/src/utils/validateSnippet.ts:7-31 | pushing each failing check's message in turn, as the validator does, yields the expected error list of the rule table |
| ValidateSnippet.ExpectedErrorsUnfolded | backend/src/utils/validateSnippet.ts:8-30 | the error list is title, code, summary, language, framework, tags, each contributing its message exactly when its check fails |
| ValidateSnippet.ErrorsPresence | backend/src/utils/validateSnippet.ts:6-32 | the message of a rule is reported iff that rule applies and fails; there are no errors iff no rule fails |
| ValidateSnippet.PartialSkipsAbsentKey | backend/src/utils/validateSnippet.ts:6 | in partial mode a key absent from the data is never reported |
| ValidateSnippet.MessagesDistinct | backend/src/utils/validateSnippet.ts:9-29 | the six messages are pairwise distinct, so a message identifies its field |
| ValidateSnippet.MessageCountFrom | backend/src/utils/validateSnippet.ts:8-30 | each message occurs at most once, and exactly once when its rule fails |
| ValidateSnippet.FullModeReportsNonString | backend/src/utils/validateSnippet.ts:8-26 | in full mode a text field that is absent or not a string is reported exactly once |
| ValidateSnippet.TitleAndCodeAloneFail | backend/src/utils/validateSnippet.ts:16-30 | data with only title and code fails full validation with the summary, language, framework and tags messages |
| ValidateSnippet.ErrorsFollowRuleOrder | backend/src/utils/validateSnippet.ts:8-30 | the errors from any rule onward are a subsequence of those rules' messages, at most one per rule |
| ValidateSnippet.SkipFirstKeepsSubsequence | backend/src/utils/validateSnippet.ts:8-30 | a subsequence of a list's tail is a subsequence of the list (used for the order proof) |
| ValidateSnippet.SubsequenceOfTail | backend/src/utils/validateSnippet.ts:8-30 | dropping the first element keeps a subsequence (used for the order proof) |
| ValidateSnippet.MessagesFromTail | backend/src/utils/validateSnippet.ts:8-30 | the rule table lists its messages in the order the checks run them |
| ValidateSnippet.MessagesInFixedOrder | backend/src/utils/validateSnippet.ts:8-30 | the error list is a subsequence of the six messages in check order, so it has at most six entries |
| ValidateSnippet.TagsNeedOnlyAnArray | backend/src/utils/validateSnippet.ts:28-30 | any array passes the tags check, whatever its elements |
| ValidateSnippet.EmptyTextPasses | backend/src/utils/validateSnippet.ts:8-14 | an empty title and code are strings and pass the title and code checks |
| ValidateSnippet.ModesAgreeFrom | backend/src/utils/validateSnippet.ts:6 | when every key from a rule onward is present, partial and full mode report the same errors from there on |
| ValidateSnippet.ModesAgreeOnCompleteData | backend/src/utils/validateSnippet.ts:6 | with all six keys present the two modes report the same errors |
| ValidateCachedSnippet.IsValidCachedSnippet | backend/src/utils/validateCachedSnippet.ts:4-11 | true iff the value is an object whose `_id`, `title`, `code` and `userId` are strings; `null` and `undefined` are rejected |
| ValidateCachedSnippet.NonObjectRejected | backend/src/utils/validateCachedSnippet.ts:5-6 | no value other than an object is accepted |
| ValidateCachedSnippet.OptionalFieldsIrrelevant | backend/src/utils/validateCachedSnippet.ts:7-10 | setting or removing any other key does not change the verdict |
| BuildCacheKey.BuildCacheKey | backend/src/utils/buildCacheKey.ts:2-9 | fails (the destructuring of a missing `params`) iff the id is falsy and there are no params; every key starts with `snippets:<userId>:` |
| BuildCacheKey.SingleKeyIgnoresId | backend/src/utils/buildCacheKey.ts:3-4 | every truthy id gives the same key, the literal `snippets:<userId>:$snippetId}` |
| BuildCacheKey.SingleKeyCollides | backend/src/utils/buildCacheKey.ts:4 | two different ids `a` and `b` get the same key |
| BuildCacheKey.ListingDefaults | backend/src/utils/buildCacheKey.ts:7-8 | absent page and limit render as 1 and 20 |
| BuildCacheKey.AbsentFiltersRenderUndefined | backend/src/utils/buildCacheKey.ts:7-8 | with no filters and no page or limit the key is the owner's namespace followed by `undefined:undefined:1:20` |
| BuildCacheKey.ListingKeysCanCollide | backend/src/utils/buildCacheKey.ts:8 | the query shapes `a:b`/`c` and `a`/`b:c` get the same listing key |
| BuildCacheKey.BuildCacheKeyIntended | backend/src/utils/buildCacheKey.ts:2-9 | same failure condition and prefix as the code; agrees with it whenever the id is falsy |
| BuildCacheKey.IntendedKeysSeparateIds | backend/src/utils/buildCacheKey.ts:4 | with the identifier interpolated, distinct non-empty ids get distinct keys |
| Errors.ErrorIdentity | backend/src/lib/errors.ts:1-20 | a `ValidationError` always carries `Invalid data provided`; a `NotFoundError` carries the message it was given; the two names differ |
| SnippetService.CastString | backend/src/models/Snippet.ts:17-23 | a string casts to itself; exactly strings, numbers and booleans cast to a `String` path (see Left out for `null` and `{_id}`) |
| SnippetService.CastTags | backend/src/models/Snippet.ts:22 | an array casts to `[String]` iff every element casts, element by element, keeping length and order |
| SnippetService.CreateIgnoresDataOwner | backend/src/services/snippetService.ts:12-15 | a `userId` in the request data changes neither the stored record nor the store's verdict; the caller is the owner |
| SnippetService.EmptyTitleRejectedByStore | backend/src/models/Snippet.ts:18 | an empty title is rejected by the schema on create |
| SnippetService.Updated | backend/src/services/snippetService.ts:55-59 | the updated record keeps its id and creation time, gets the new modification time, and keeps its owner unless the data names one |
| SnippetService.UpdateCanReassignOwner | backend/src/services/snippetService.ts:55-59 | update data carrying a `userId` string moves the record to that owner |
| SnippetService.Selected | backend/src/services/snippetService.ts:22-31 | the selection holds exactly the records that are the owner's and match the tag and keyword filters |
| SnippetService.InsertNewestPermutes | backend/src/services/snippetService.ts:34 | inserting one record adds exactly it to the multiset |
| SnippetService.PrependSorted | backend/src/services/snippetService.ts:34 | a record no older than any other in a sorted list may go in front |
| SnippetService.InsertNewestSorted | backend/src/services/snippetService.ts:34 | insertion keeps newest-first order |
| SnippetService.NewestFirstSortsAndPermutes | backend/src/services/snippetService.ts:34 | the sort yields newest-first order and a permutation of its input |
| SnippetService.NewestFirstSorted | backend/src/services/snippetService.ts:34 | the sort yields newest-first order |
| SnippetService.NewestFirstPermutes | backend/src/services/snippetService.ts:34 | the sort neither loses nor adds a record |
| SnippetService.Cap | backend/src/services/snippetService.ts:36 | a page never exceeds what remains, nor the limit's magnitude when the limit is non-zero |
| SnippetService.SliceSorted | backend/src/services/snippetService.ts:35-36 | a slice of a sorted list is sorted |
| SnippetService.SliceSubMultiset | backend/src/services/snippetService.ts:35-36 | a slice takes nothing its list does not have |
| SnippetService.WindowOfSorted | backend/src/services/snippetService.ts:34-36 | skipping and limiting a newest-first list keeps it newest first, takes at most `|limit|` records, and takes nothing the list does not have |
| SnippetService.ListingProperties | backend/src/services/snippetService.ts:20-39 | every listed record is the owner's and matches; the page is newest-first, at most `limit` long and a sub-multiset of the selection |
| SnippetService.FindOwned | backend/src/services/snippetService.ts:42 | finds the first record with that id and owner, and none iff there is no such record |
| SnippetService.SnippetStore.constructor | backend/src/services/snippetService.ts:5 | the store starts empty |
| SnippetService.AppendFreshId | backend/src/services/snippetService.ts:6-18 | a new record with the next identifier keeps identifiers distinct |
| SnippetService.SnippetStore.CreateSnippet | backend/src/services/snippetService.ts:6-18 | failing full validation gives a `ValidationError` with the messages; schema faults give a store error; either way nothing changes. Without either kind of error the create succeeds, and it succeeds only then: the new record, owned by the caller, is appended under a fresh id and the ids stay unique |
| SnippetService.SnippetStore.GetAllSnippets | backend/src/services/snippetService.ts:20-39 | a negative skip fails. Otherwise the result is the window of the sorted selection: owned, matching, newest-first, at most `limit` long |
| SnippetService.SnippetStore.GetSnippetById | backend/src/services/snippetService.ts:41-47 | returns a stored record with that id and owner; `Snippet not found` iff the owner has none |
| SnippetService.SnippetStore.UpdateSnippet | backend/src/services/snippetService.ts:49-66 | validation errors, then cast faults, then `Snippet not found` leave the store unchanged; when none of the three applies the update succeeds, and then exactly the first owned match is replaced by its update |
| SnippetService.SnippetStore.DeleteSnippet | backend/src/services/snippetService.ts:68-73 | `Snippet not found` and no change when the owner has no such record; otherwise that record is removed and no record with the id remains |
| CheckAuth.BearerToken | backend/src/middleware/checkAuth.ts:25 | the token is no longer than what follows the prefix |
| CheckAuth.BearerTokenIsNextWord | backend/src/middleware/checkAuth.ts:25 | `split(' ')[1]` exists and is the text after `Bearer ` up to the next space |
| CheckAuth.Decide | backend/src/middleware/checkAuth.ts:14-39 | a missing or non-`Bearer ` header gives 401; a missing or empty secret gives 500; only a verified token proceeds; every response is 401 or 500 |
| CheckAuth.AdmittedIffTokenVerifies | backend/src/middleware/checkAuth.ts:20-33 | the request proceeds iff the header has the prefix, the secret is set and the token verifies, and then with the payload's `id` |
| CheckAuth.TrailingWordsIgnored | backend/src/middleware/checkAuth.ts:25 | words after the token are ignored |
| CheckAuth.TakeUntilStops | backend/src/middleware/checkAuth.ts:25 | the token stops at the first space |
| CheckAuth.NoSecretIgnoresVerifier | backend/src/middleware/checkAuth.ts:28 | without a secret the verifier plays no part and the request is answered |
| CheckAuth.PrefixIsExact | backend/src/middleware/checkAuth.ts:20-21 | `bearer x`, a bare `Bearer` and no header are all refused with 401 |
| CheckAuth.Request.constructor | backend/src/middleware/checkAuth.ts:6-12 | a request starts with its header and no `userId` |
| CheckAuth.Response.constructor | backend/src/middleware/checkAuth.ts:14 | a response starts with nothing sent |
| CheckAuth.Next.constructor | backend/src/middleware/checkAuth.ts:14 | `next` starts uncalled |
| CheckAuth.Run | backend/src/middleware/checkAuth.ts:14-39 | on a refusal the status and message are sent and `next` is not called; on success `req.userId` is set and `next` is called once with nothing sent |
| SnippetSlice.WithField | frontend/src/store/slices/snippetSlice.ts:80-83 | exactly the named field takes the new value |
| SnippetSlice.WithTag | frontend/src/store/slices/snippetSlice.ts:84-87 | the tag is present afterwards, nothing else is added, and the old tags keep their order in front |
| SnippetSlice.WithoutTag | frontend/src/store/slices/snippetSlice.ts:88-92 | the tag is gone and every other tag keeps its count |
| SnippetSlice.WithTagIdempotent | frontend/src/store/slices/snippetSlice.ts:84-87 | adding a tag twice is adding it once |
| SnippetSlice.WithTagKeepsDistinct | frontend/src/store/slices/snippetSlice.ts:84-87 | adding keeps tags free of duplicates |
| SnippetSlice.WithoutTagAbsent | frontend/src/store/slices/snippetSlice.ts:88-92 | removing an absent tag changes nothing |
| SnippetSlice.WithoutTagAppend | frontend/src/store/slices/snippetSlice.ts:88-92 | removal distributes over concatenation |
| SnippetSlice.RemoveUndoesAdd | frontend/src/store/slices/snippetSlice.ts:84-92 | removing a newly added tag restores the list |
| SnippetSlice.WithoutTagIdempotent | frontend/src/store/slices/snippetSlice.ts:88-92 | removing twice is removing once |
| SnippetSlice.WithoutTagKeepsDistinct | frontend/src/store/slices/snippetSlice.ts:88-92 | removing keeps tags free of duplicates |
| SnippetSlice.SnippetSlice.constructor | frontend/src/store/slices/snippetSlice.ts:35-49 | the initial filters, empty selection, no last-opened id, the empty draft, no edit buffers |
| SnippetSlice.SnippetSlice.SetFilters | frontend/src/store/slices/snippetSlice.ts:57-59 | payload keys override, other filters stay, nothing else changes |
| SnippetSlice.SnippetSlice.ClearFilters | frontend/src/store/slices/snippetSlice.ts:60-62 | filters become empty `q` and `tag`, with no page |
| SnippetSlice.SnippetSlice.SetSelectedIds | frontend/src/store/slices/snippetSlice.ts:63-65 | only the selection changes, to the payload |
| SnippetSlice.SnippetSlice.ClearSelectedIds | frontend/src/store/slices/snippetSlice.ts:66-68 | only the selection changes, to empty |
| SnippetSlice.SnippetSlice.SetLastOpenedId | frontend/src/store/slices/snippetSlice.ts:69-71 | only the last-opened id changes |
| SnippetSlice.SnippetSlice.SetDraft | frontend/src/store/slices/snippetSlice.ts:74-76 | only the draft changes, to the payload |
| SnippetSlice.SnippetSlice.ClearDraft | frontend/src/store/slices/snippetSlice.ts:77-79 | only the draft changes, to the empty draft |
| SnippetSlice.SnippetSlice.UpdateDraftField | frontend/src/store/slices/snippetSlice.ts:80-83 | only the named draft field changes |
| SnippetSlice.SnippetSlice.AddDraftTag | frontend/src/store/slices/snippetSlice.ts:84-87 | the draft's tags gain the tag if absent; duplicate-free tags stay duplicate-free |
| SnippetSlice.SnippetSlice.RemoveDraftTag | frontend/src/store/slices/snippetSlice.ts:88-92 | every copy of the tag leaves the draft; duplicate-free tags stay duplicate-free |
| SnippetSlice.SnippetSlice.SetDraftSaving | frontend/src/store/slices/snippetSlice.ts:93-95 | only the saving flag changes |
| SnippetSlice.SnippetSlice.SetDraftError | frontend/src/store/slices/snippetSlice.ts:96-98 | only the draft error changes |
| SnippetSlice.SnippetSlice.LoadEditBuffer | frontend/src/store/slices/snippetSlice.ts:102-104 | the buffer for the id is set; other buffers are untouched |
| SnippetSlice.SnippetSlice.UpdateEditBufferField | frontend/src/store/slices/snippetSlice.ts:105-108 | an existing buffer's field changes; no buffer, no change |
| SnippetSlice.SnippetSlice.AddEditBufferTag | frontend/src/store/slices/snippetSlice.ts:109-116 | an existing buffer gains the tag if absent; no buffer, no change |
| SnippetSlice.SnippetSlice.RemoveEditBufferTag | frontend/src/store/slices/snippetSlice.ts:117-123 | an existing buffer loses the tag; no buffer, no change |
| SnippetSlice.SnippetSlice.ClearEditBuffer | frontend/src/store/slices/snippetSlice.ts:124-126 | the id's buffer is deleted and the others are kept |
| AuthSlice.AuthSlice.constructor | frontend/src/store/slices/authSlice.ts:13-18 | no token, not loading, no error, no user, not signed in |
| AuthSlice.AuthSlice.SetToken | frontend/src/store/slices/authSlice.ts:24-26 | only the token changes |
| AuthSlice.AuthSlice.SetLoading | frontend/src/store/slices/authSlice.ts:28-30 | only the loading flag changes |
| AuthSlice.AuthSlice.SetError | frontend/src/store/slices/authSlice.ts:32-34 | only the error changes |
| AuthSlice.AuthSlice.SetUser | frontend/src/store/slices/authSlice.ts:36-38 | only the user changes |
| AuthSlice.AuthSlice.LogoutSuccess | frontend/src/store/slices/authSlice.ts:40-45 | back to the initial state, signed out |
| AuthSlice.AuthSlice.LoginSuccess | frontend/src/store/slices/authSlice.ts:47-51 | token and user from the payload, not loading, error kept; signed in (`selectIsAuth`) iff the token is non-empty |
| SnippetApi.ProvidesTags | frontend/src/store/slices/api/snippetApi.ts:12-16 | one tag per listed snippet in order, then the list tag; only the list tag without data |
| SnippetApi.ProvidedTagsCoverListing | frontend/src/store/slices/api/snippetApi.ts:12-16 | every listed snippet's id is tagged, and the list tag is always there |
| SnippetApi.FindTemp | frontend/src/store/slices/api/snippetApi.ts:47 | the first index holding `temp-id`; none iff no snippet has that id |
| SnippetApi.ReplaceTemp | frontend/src/store/slices/api/snippetApi.ts:46-51 | the first placeholder is replaced by the saved snippet; without one, nothing changes |
| SnippetApi.SuccessPrependsSaved | frontend/src/store/slices/api/snippetApi.ts:30-53 | patch then confirm puts the saved snippet in front of the old listing with the total one higher |
| SnippetApi.ListCache.constructor | frontend/src/store/slices/api/snippetApi.ts:10-18 | the cache holds the given listings |
| SnippetApi.ListCache.PatchHome | frontend/src/store/slices/api/snippetApi.ts:30-39 | the home entry, if cached, gets the placeholder and its old value is returned for undo; otherwise nothing changes |
| SnippetApi.ListCache.ConfirmHome | frontend/src/store/slices/api/snippetApi.ts:42-53 | the home entry's placeholder becomes the saved snippet |
| SnippetApi.ListCache.Undo | frontend/src/store/slices/api/snippetApi.ts:54-56 | the home entry goes back to its value before the patch |
| SnippetApi.ListCache.OnQueryStarted | frontend/src/store/slices/api/snippetApi.ts:29-57 | on failure the cache is as before; on success the saved snippet heads the home listing with its total one higher; other entries never change |
| PaginationBar.Bounds | frontend/src/components/paginationbar.tsx:19-23 | the window starts at page 1 or later, lies within the pages, spans three pages when there are three, and is all pages when there are fewer |
| PaginationBar.Range | frontend/src/components/paginationbar.tsx:24-27 | the consecutive pages from the start to the end |
| PaginationBar.RangeOf | frontend/src/components/paginationbar.tsx:24-27 | a sequence of consecutive pages is that range |
| PaginationBar.PageNumbers | frontend/src/components/paginationbar.tsx:19-27 | the loop produces the window's bounds and exactly its pages |
| PaginationBar.WindowShape | frontend/src/components/paginationbar.tsx:19-27 | the window shows `min(3, total)` existing pages, each page between its ends |
| PaginationBar.CurrentPageShown | frontend/src/components/paginationbar.tsx:19-23 | an existing current page is in the window, which starts at `max(1, min(current-1, total-2))` from three pages up |
| PaginationBar.NoPagesNoWindow | frontend/src/components/paginationbar.tsx:19-27 | with no pages there are no page links |
| PaginationBar.TargetsInRange | frontend/src/components/paginationbar.tsx:34-35 | Previous and Next lead to existing pages, and stay put exactly at the first and the last page |
| PaginationBar.Items | frontend/src/components/paginationbar.tsx:32-73 | the bar starts with Previous and ends with Next, each disabled exactly at its end |
| PaginationBar.InItems | frontend/src/components/paginationbar.tsx:32-73 | an item is on the bar exactly when Previous, Next, or one of the optional links, ellipses and page links in between is it |
| PaginationBar.PageLinks | frontend/src/components/paginationbar.tsx:48-57 | one link per window page, active exactly for the current page |
| PaginationBar.ItemsAroundWindow | frontend/src/components/paginationbar.tsx:38-67 | first-page link iff the window starts after page 1; left ellipsis iff it starts after 2; right ellipsis iff it ends before the second-to-last page; last-page link iff it ends before the last; only the current page is active |
| PaginationBar.LargeRangeShowsBothEllipses | frontend/src/components/paginationbar.test.tsx:58-64 | page 5 of 20 shows pages 4-6, the first and last links and both ellipses |
| PaginationBar.SmallRangeShowsNoEllipsis | frontend/src/components/paginationbar.test.tsx:66-69 | page 2 of 4 shows pages 1-3, a last link and no ellipsis |
| HexColor.DigitValue | frontend/src/pages/HomePage.tsx:25 | a hexadecimal digit's value is below 16 |
| HexColor.HexChar | frontend/src/pages/HomePage.tsx:34 | `toString(16)` writes a value below 16 as a lower-case digit worth that value |
| HexColor.HexCharOfDigit | frontend/src/pages/HomePage.tsx:25-34 | writing a digit's value gives the digit in lower case |
| HexColor.HexRun | frontend/src/pages/HomePage.tsx:25 | `parseInt` reads the longest run of hexadecimal digits at the front |
| HexColor.RemoveFirst | frontend/src/pages/HomePage.tsx:24 | `replace('#', '')` removes one character when there is a `#`, and changes nothing without one |
| HexColor.RemoveFirstAt | frontend/src/pages/HomePage.tsx:24 | only the first `#` is removed |
| HexColor.ParseInt16 | frontend/src/pages/HomePage.tsx:25 | the parse is `NaN` iff no digit follows the leading whitespace, sign and `0x` prefix |
| HexColor.HexToRgb | frontend/src/pages/HomePage.tsx:23-31 | every component is between 0 and 255 |
| HexColor.Unmask | frontend/src/pages/HomePage.tsx:27-29 | the shifts and masks give components between 0 and 255, and `NaN` gives black |
| HexColor.NatToHex | frontend/src/pages/HomePage.tsx:34 | `toString(16)` writes at least one digit |
| HexColor.ByteDigits | frontend/src/pages/HomePage.tsx:34 | a component is written as exactly its two lower-case digits |
| HexColor.Digits | frontend/src/pages/HomePage.tsx:35 | a colour's digits are six characters |
| HexColor.RgbToHexIsDigits | frontend/src/pages/HomePage.tsx:33-36 | `rgbToHex` writes `#` and the six digits |
| HexColor.RgbToHexFormat | frontend/src/pages/HomePage.tsx:33-36 | the output is `#` and six lower-case hexadecimal digits |
| HexColor.SixDigitValue | frontend/src/pages/HomePage.tsx:25-29 | six digits are worth their three bytes, high to low |
| HexColor.HexRunAll | frontend/src/pages/HomePage.tsx:25 | an all-digit string is read whole |
| HexColor.ParseSixDigits | frontend/src/pages/HomePage.tsx:25 | six digits parse to their value |
| HexColor.Unpack | frontend/src/pages/HomePage.tsx:27-29 | the shifts and masks recover the three bytes of a packed colour |
| HexColor.DigitsValue | frontend/src/pages/HomePage.tsx:25-35 | a written colour's digits are worth its packed value |
| HexColor.HashDigitsParse | frontend/src/pages/HomePage.tsx:23-31 | `#` and six digits unmask their value |
| HexColor.WrittenDigitsParse | frontend/src/pages/HomePage.tsx:23-35 | reading back a written colour unmasks its packed value |
| HexColor.RgbRoundTrip | frontend/src/pages/HomePage.tsx:23-36 | `hexToRgb(rgbToHex(r, g, b))` is `(r, g, b)` for components between 0 and 255 |
| HexColor.PairRoundTrip | frontend/src/pages/HomePage.tsx:27-34 | a byte read from two digits is below 256 and is written back as those digits in lower case |
| HexColor.HashDigitsBytes | frontend/src/pages/HomePage.tsx:23-31 | `#` and six digits give the byte of each digit pair |
| HexColor.PairsWritten | frontend/src/pages/HomePage.tsx:33-36 | writing the bytes of six digits gives `#` and those digits in lower case |
| HexColor.HexRoundTrip | frontend/src/pages/HomePage.tsx:23-36 | `rgbToHex(hexToRgb('#' + s))` is `#` and `s` in lower case, for six hexadecimal digits |
| HexColor.OnlyFirstHashRemoved | frontend/src/pages/HomePage.tsx:24-25 | one leading `#` is ignored: `#` followed by text without `#` reads as that text does |
| HexColor.LeadingHashRemoved | frontend/src/pages/HomePage.tsx:24 | `replace('#', '')` drops a leading `#` and leaves text without a `#` unchanged |
| HexColor.HashStopsParse | frontend/src/pages/HomePage.tsx:25 | text that starts with `#` parses to `NaN` |
| HexColor.DoubleHashReadsBlack | frontend/src/pages/HomePage.tsx:24-25 | `##112233` is black, because `replace` drops only the first `#` and the second one stops the parse |
| HexColor.ParseStopsAtNonDigit | frontend/src/pages/HomePage.tsx:25 | `12zz56` parses as `0x12` |
| HexColor.NegativeWraps | frontend/src/pages/HomePage.tsx:25-29 | `-1` unmasks to white, as 32-bit two's complement |
| Js.TypeOf | backend/src/utils/validateSnippet.ts:8 | `typeof` reports `string` exactly for a string |
| Js.TrimStart | backend/src/services/snippetService.ts:28 | removes exactly the leading whitespace |
| Js.TrimEnd | backend/src/services/snippetService.ts:28 | removes exactly the trailing whitespace |
| Js.TrimNonEmpty | backend/src/services/snippetService.ts:28 | `q.trim()` is non-empty iff `q` has a non-whitespace character |
| Js.LowerLeavesNoCapital | backend/src/services/snippetService.ts:29 | the case-insensitive match's lower-cased text holds no ASCII capital |
| Js.LowerFixesExactlyNoCapital | backend/src/services/snippetService.ts:29 | lower-casing leaves a string unchanged exactly when it has no ASCII capital |
| Js.LowerIdempotent | backend/src/services/snippetService.ts:29 | lower-casing twice is lower-casing once |
| Js.Split | backend/src/middleware/checkAuth.ts:25 | `split` gives at least one part |
| Js.TakeUntil | backend/src/middleware/checkAuth.ts:25 | the longest prefix without the separator |
| Js.SplitJoin | backend/src/middleware/checkAuth.ts:25 | the parts hold no separator and join back to the input |
| Js.SplitFirst | backend/src/middleware/checkAuth.ts:25 | the first part runs up to the first separator |
| Js.SplitAfter | backend/src/middleware/checkAuth.ts:25 | after the first separator, the remaining parts are the rest's |
| Js.NatToDecimal | backend/src/models/Snippet.ts:22 | a number is written with at least one digit |

## Left out

- Networking, the HTTP controllers and routes, the database, the cache server, the vector index, React rendering and the AI endpoints: outside the core. The snippet store is a sequence held by the class.
- The service's cache read-through and invalidation: the service code does not use them. `buildCacheKey` and `isValidCachedSnippet` are modelled only as functions.
- Asynchrony and concurrency: every operation runs to completion, one at a time.
- Clocks: the current time is a parameter. The two `new Date()` calls of the placeholder are taken to give the same instant.
- Token verification: `jwt.verify` is a parameter. It returns the payload, or fails.
- The secret comes from the environment: it is a parameter.
- Identifiers: record ids are natural numbers drawn from a counter. The malformed-ObjectId cast error of the store is not modelled.
- Query parameters: they arrive as strings over HTTP, and the model takes `page` and `limit` as integers. The string-to-number coercion and `NaN` arithmetic are not modelled.
- SnippetService.GetAllSnippets: the keyword is matched as a literal, case-insensitive substring of title or code. Regular-expression syntax in `q` is not interpreted.
- SnippetService.GetAllSnippets: records with the same creation time keep their stored order. The database does not promise any order for them.
- Js.Lower: converts ASCII letters only; Unicode case folding is not modelled.
- SnippetService.CastString: the schema's `String` cast also lets `null` through and turns an object with a string `_id` into that `_id`; the model counts both as cast faults. Update data with `userId: null` or `userId: {_id: …}` is therefore rejected here, where the store would clear the owner or set it to that `_id`.
- ValidateCachedSnippet.IsValidCachedSnippet: returns a boolean, the truthiness of the result. When a check fails early the source returns the falsy operand itself (`null`, `undefined` or `false`).
- The default `NotFoundError` message (`Resource not found`) is not modelled: the service always passes its own message.
- The document store's handling of unknown keys, timestamps and the embedding vector in request data: the model keeps the six schema fields, the owner and the two timestamps.
- `null` elements in a `tags` array: treated like any other value that does not cast.
- HexColor.ParseInt16: parses exactly over unbounded integers. It does not model floating-point rounding for inputs worth more than 2^53.
- The request cache's refetch after `invalidatesTags` is not modelled.
- RTK's inverse patches: the undo is modelled as restoring the snapshot of the home entry.
- `interpolateColor` and the other home-page rendering code are not modelled.

## Findings

| source | as written | input that shows it | evidently intended | confidence | as-written member | corrected member |
|---|---|---|---|---|---|---|
| backend/src/utils/buildCacheKey.ts:4 | the single-snippet key template is `snippets:${userId}:$snippetId}`, so it contains the literal text `$snippetId}` instead of the identifier | `buildCacheKey("u", undefined, "a")` and `buildCacheKey("u", undefined, "b")` both give `snippets:u:$snippetId}` | `snippets:${userId}:${snippetId}`, one key per snippet | not executed | BuildCacheKey.SingleKeyCollides | BuildCacheKey.IntendedKeysSeparateIds |
