# Blog feed, tag filter and post form: a Dafny model

This project models the client-side logic of a small blog app. The posts
live in a database behind server actions. The model covers six parts:

- **The post feed** (`PostList.Feed`). It holds the typed search text and
  its debounced copy, the selected tag, the "tag click in progress" flag,
  the scroll mode, the ids of posts with expanded comments, and the pages of
  the infinite query. The pages sit in a cache keyed by the query key. Each
  timer and the intersection observer is an explicit event method:
  - `TagTimerFired` is the 0 ms timer of the tag effect;
  - `FlagReset` is the 100 ms timer;
  - `DebounceFired` is the 500 ms debounce;
  - `SentinelVisible` is the observer's callback;
  - `PageArrived` and `RequestFailed` are the server's answers.
- **The wrapper's shared tag selection** (`TagListWrapper.TagSelection`).
  The tag list highlights it and the feed filters by it. The feed holds a
  reference to the same object, so the wrapper's `onUserSearchStart`
  callback is a method call on the shared selection.
- **The tag list** (`TagList`). It shows a window of ten tags, with more and
  collapse buttons, the highlighted chip and the clear button.
- **The searchable combobox** (`Combobox`). It filters options by label,
  shows the selected option's label, and has open and search state.
- **The post-creation form** (`PostCreate`). It holds the tag entry list,
  handles the key presses, and on submit validates, builds the form data
  and resets the fields.
- **The zod schemas** for users, posts and comments (`Validation`). They
  are modelled as parse functions that return the typed record or the
  issues.

Helper modules:

- `Text`: ASCII `trim`, `toLowerCase`, `includes`, `join`, and the decimal
  text of an id.
- `Seqs`: `filter(x => x !== v)`, subsequences and duplicate freedom.
- `Wrappers`: `Option`.

Each stateful component is a class. Its fields are the component's state and
its methods are the event handlers. Each method's contract states the
complete new state. The pure rules are functions with lemmas:

- the query key;
- the server arguments;
- `getNextPageParam`;
- the flattening of pages;
- `toggleComments`;
- `addTag` and `removeTag`;
- the combobox filter;
- the tag window.

Invariants each class keeps:

- `PostList.Feed.Valid`:
  - the expanded ids have no duplicates;
  - every cached query is well paged: page k was fetched with skip 5k, and every page but the last reported more;
  - a fetch in flight asks for exactly the next skip.
- `PostCreate.PostCreateForm.Valid`: the tags are non-empty, trimmed and duplicate-free.

## Model

| member | source | states |
|---|---|---|
| PostList.QueryKeyModes | components/post-list.tsx:96-98 | with a non-empty tag the key is `["posts","",tag]` whatever the text; without a tag it is `["posts",debounced,""]`; a tag-mode key never equals a search-mode key |
| PostList.QueryKeyFor | components/post-list.tsx:96-98 | the key of a filter state; `QueryKeyModes` states its two modes and that they never meet, `KeyDeterminesArgs` that it fixes the server call |
| PostList.ArgsFor | components/post-list.tsx:102-107 | skip is the page parameter and take is 5; the tag is sent iff non-empty; the search text is sent iff no tag is selected and the text is non-empty; so at most one filter is defined |
| PostList.Defined | components/post-list.tsx:105-106 | `s \|\| undefined` is defined exactly for a non-empty string, and then is that string |
| PostList.KeyDeterminesArgs | components/post-list.tsx:96-107 | two filter states with equal keys ask the server the same question, so a key's cached pages answer that key's query |
| PostList.NextPageParam | components/post-list.tsx:109-114 | the next offset is the number of pages times 5 when the last page reports more, otherwise there is none |
| PostList.ArrivalKeepsConsistent | components/post-list.tsx:93-115 | storing an awaited page under its key and retiring that fetch keeps every cached query well paged, with each fetch still in flight asking for the page after its query's cached ones |
| PostList.NextPageKeepsPaging | components/post-list.tsx:109-115 | starting from skip 0 and appending pages at the offset `getNextPageParam` gives, page k of a query is fetched with skip 5k and every page but the last reported more |
| PostList.Flatten | components/post-list.tsx:125 | a post shows exactly when some page holds it; `FlattenAppend` and `FlattenLength` state the order and the length |
| PostList.FlattenAppend | components/post-list.tsx:125 | the flattened list of pages plus one page is the old list followed by that page's posts |
| PostList.FlattenLength | components/post-list.tsx:125 | the displayed list's length is the sum of the page lengths |
| PostList.NextSkipIsPostsShown | components/post-list.tsx:109-125 | when every page is full, the next skip equals the number of posts shown, so the next page starts right after the posts on screen while the server's list stays the same |
| PostList.Toggle | components/post-list.tsx:209-213 | `toggleComments`' new list; `ToggleProperties` and `ToggleTwice` state what it does |
| PostList.ToggleProperties | components/post-list.tsx:209-213 | toggling flips membership of that id alone; an absent id is appended; every copy of a present id is removed; the other ids keep their order; no duplicate is ever created |
| PostList.ToggleTwice | components/post-list.tsx:209-213 | toggling the same id twice restores membership for every id |
| PostList.BodyFor | components/post-list.tsx:276-282 | the branch the list area renders; `NoPostsFoundUnreachable` states which branches can show |
| PostList.NoPostsFoundUnreachable | components/post-list.tsx:276-282 | the "No posts found" branch never renders; "No posts yet" renders exactly for an empty list |
| PostList.Feed.constructor | components/post-list.tsx:35-68 | mounts in manual mode with empty texts, nothing expanded and nothing cached; the debounce starts; a tag already selected sets the flag and schedules its timer |
| PostList.Feed.CurrentKey | components/post-list.tsx:96-98 | the query key of the current tag and debounced text; `QueryKeyModes` states which of the two it names |
| PostList.Feed.Pages | components/post-list.tsx:125 | the active key's cached pages, none when uncached; `PageArrived` states how an answer changes the cache and `CacheConsistent` holds them well paged |
| PostList.Feed.Body | components/post-list.tsx:276-282 | the empty-state branch for the posts on screen; `BodyFor` and `NoPostsFoundUnreachable` state which branch shows |
| PostList.Feed.Posts | components/post-list.tsx:125 | the flattened pages of the active key; `PageArrived` states how an answer changes it |
| PostList.Feed.HasNextPage | components/post-list.tsx:109-115 | the active query has pages and `getNextPageParam` gives an offset for them |
| PostList.Feed.IsFetchingNextPage | components/post-list.tsx:91 | a fetch after the first page of the active query is in flight |
| PostList.Feed.AutoLoadAllowed | components/post-list.tsx:129-137 | the observer's fetch condition; `SentinelVisible` fetches exactly when it holds |
| PostList.Feed.LoadMoreAllowed | components/post-list.tsx:592-595 | the manual button is shown and enabled; `LoadMoreClicked` fetches exactly when it holds |
| PostList.Feed.TagSelected | components/post-list.tsx:49-68 | the selection becomes the clicked name; if it changed, a non-empty tag sets the flag and schedules the clearing timer, an empty one cancels it, and the debounce restarts; the same tag again changes nothing |
| PostList.Feed.TagTimerFired | components/post-list.tsx:53-65 | a pending tag timer clears the typed and debounced text, marks the posts queries stale and schedules the flag reset; without a pending timer nothing changes |
| PostList.Feed.FlagReset | components/post-list.tsx:62-64 | a pending reset clears the flag; nothing else changes |
| PostList.Feed.SearchTyped | components/post-list.tsx:221-225 | the typed text becomes the input; a changed text restarts the debounce |
| PostList.Feed.DebounceFired | components/post-list.tsx:72-82 | the debounced text becomes the typed text; the tag is cleared iff the flag is unset, the trimmed text is non-empty, a tag is selected and the callback exists; clearing cancels the tag timer and restarts the debounce |
| PostList.Feed.SetScrollMode | components/post-list.tsx:312-327 | the scroll mode becomes the chosen one; nothing else changes |
| PostList.Feed.ToggleComments | components/post-list.tsx:209-213 | the expanded ids become their toggle; the invariant (no duplicates) is kept |
| PostList.Feed.MutationSucceeded | components/post-list.tsx:165-198 | a successful delete or update marks the posts queries stale once and changes nothing else |
| PostList.Feed.FetchFirstPage | components/post-list.tsx:93-115 | a query with no pages and no fetch in flight is fetched with skip 0 and the current filter; otherwise nothing is asked |
| PostList.Feed.FetchNextPage | components/post-list.tsx:109-115 | the next page is asked with skip = pages × 5 for the active query and recorded as in flight |
| PostList.Feed.SentinelVisible | components/post-list.tsx:128-162 | a page is fetched iff the mode is auto, the sentinel intersects, a next page exists, none is loading and the list branch shows; then it asks for skip = pages × 5 |
| PostList.Feed.LoadMoreClicked | components/post-list.tsx:589-606 | the manual button fetches iff the mode is manual, a next page exists, none is loading and the list branch shows; then it asks for skip = pages × 5 |
| PostList.Feed.PageArrived | components/post-list.tsx:93-125 | an answered fetch appends the page to its own key's entry only; a page for another query leaves the posts on screen unchanged; one for the active query appends its posts |
| PostList.Feed.RequestFailed | components/post-list.tsx:93-122 | a failed fetch is no longer in flight and caches nothing |
| Seqs.RemoveAll | components/post-list.tsx:211 | `filter(x => x !== v)` removes every `v` and keeps every copy of every other value (equal multisets but for `v`); it returns the list unchanged when `v` is absent |
| Seqs.RemoveAllIsSubsequence | app/posts/create/page.tsx:41 | the elements left by the filter keep their order |
| Seqs.RemoveAllNoDuplicates | app/posts/create/page.tsx:41 | filtering keeps a duplicate-free list duplicate-free |
| Text.Trim | app/posts/create/page.tsx:33 | the result has no white space left at either end, is no longer than the input, and is empty exactly when the input is all white space |
| Text.TrimIsInfix | app/posts/create/page.tsx:33 | the trim is the infix of the input between a leading and a trailing run of white space, so nothing else is removed |
| Text.TrimStartRemovesSpace | app/posts/create/page.tsx:33 | what the left half of the trim drops is all white space |
| Text.TrimEndRemovesSpace | app/posts/create/page.tsx:33 | what the right half of the trim drops is all white space |
| Text.TrimIdempotent | app/posts/create/page.tsx:33 | trimming twice is trimming once |
| Text.Contains | components/ui/combobox.tsx:34 | `includes` is true exactly when the text occurs at some position |
| Text.IdTextRoundTrip | app/posts/create/page.tsx:99-101 | `Number(id.toString())` gives back the id, so the combobox value maps back to the author |
| Text.NumberOf | app/posts/create/page.tsx:101 | `Number` of blank text is 0, and of other text the integer its trimmed text spells; `IdTextRoundTrip` states that it inverts `IdToString` |
| Text.IdToString | app/posts/create/page.tsx:65 | `String(userId)` is non-empty; `IdTextRoundTrip` states that `ParseId` and `NumberOf` read it back |
| Text.ParseId | app/posts/create/page.tsx:101 | the integer a decimal text spells; `IdTextRoundTrip` states that it inverts `IdToString` |
| Text.ToLower | components/ui/combobox.tsx:34 | the result has the input's length, each character lowered |
| Text.Join | app/posts/create/page.tsx:67 | `tags.join(",")`; `SplitJoin` states that splitting at the separator gives the pieces back when none holds it |
| Text.SplitJoin | app/posts/create/page.tsx:67 | the comma-joined non-empty tag list splits back into the list when no tag holds a comma |
| Text.SplitJoinNeedsSeparatorFree | app/posts/create/page.tsx:67 | a tag holding a comma comes back as two pieces |
| PostCreate.AddTagProperties | app/posts/create/page.tsx:32-38 | the list either stays, with the input kept, or grows by the trimmed input alone, with the input cleared; it grows iff the trimmed input is non-empty and new; afterwards the trimmed input is present; adding again changes nothing |
| PostCreate.AddTagKeepsWellFormed | app/posts/create/page.tsx:32-38 | adding keeps every tag non-empty, trimmed and unique |
| PostCreate.AddTag | app/posts/create/page.tsx:32-38 | `addTag`'s new list and input; `AddTagProperties` and `AddTagKeepsWellFormed` state what it does |
| PostCreate.RemoveTag | app/posts/create/page.tsx:40-42 | `removeTag`'s new list; `RemoveTagProperties` and `Seqs.RemoveAll` state what it does |
| PostCreate.RemoveTagProperties | app/posts/create/page.tsx:40-42 | removing drops the value and keeps the others in order; an absent value leaves the list unchanged; the invariant is kept |
| PostCreate.SubmitAcceptedIff | app/posts/create/page.tsx:57-61 | the form passes validation iff the title is non-empty and an author is picked; the tags play no part |
| PostCreate.Get | actions/actions.ts:112-113 | `formData.get`; `GetFindsFirst` states that it returns the first entry of that name and nothing exactly when there is none |
| PostCreate.GetFindsFirst | actions/actions.ts:112-113 | for every form and key, the result is the value of the first entry with that key, and none exactly when no entry has it |
| PostCreate.AddsTag | app/posts/create/page.tsx:45-50 | Enter or comma; `TagInputKeyDown` states that exactly these keys prevent the default and add the tag |
| PostCreate.BuildFormData | app/posts/create/page.tsx:63-68 | the form data carries the title and `String(userId)`; the comma-joined tags are present exactly when the list is non-empty |
| PostCreate.SubmitPayload | app/posts/create/page.tsx:57 | the object the form validates; `SubmitAcceptedIff` states when it passes |
| PostCreate.ServerPayload | actions/actions.ts:111-114 | the object the server validates, with `Number` of the `userId` entry; `SentFormRoundTrips` states that a sent form passes it |
| PostCreate.PayloadOfSentForm | actions/actions.ts:111-114 | a form whose `userId` entry reads as the number n reaches the server's schema as exactly the encoded post with that title and author n |
| PostCreate.SentFormRoundTrips | actions/actions.ts:110-114 | the form data sent on success passes the server's post schema with the same title and author; when no tag holds a comma, the `tags` entry splits back into the tag list |
| PostCreate.PostCreateForm.constructor | app/posts/create/page.tsx:27-30 | the fields start empty, with no author |
| PostCreate.PostCreateForm.TitleChanged | app/posts/create/page.tsx:92 | the title becomes the input; nothing else changes |
| PostCreate.PostCreateForm.AuthorPicked | app/posts/create/page.tsx:101 | the author becomes `Number` of the reported value, 0 for blank text |
| PostCreate.PostCreateForm.TagInputChanged | app/posts/create/page.tsx:113 | the tag input becomes the typed text |
| PostCreate.PostCreateForm.AddTagClicked | app/posts/create/page.tsx:117-119 | the Add button applies `addTag` and keeps the tag invariant |
| PostCreate.PostCreateForm.RemoveTagClicked | app/posts/create/page.tsx:133-135 | the × button applies `removeTag` and keeps the tag invariant |
| PostCreate.PostCreateForm.TagInputKeyDown | app/posts/create/page.tsx:44-52 | Enter and comma prevent the default and apply `addTag`; any other key changes nothing |
| PostCreate.PostCreateForm.Submit | app/posts/create/page.tsx:54-74 | a failed validation sends nothing and changes nothing; a passing one sends the form data of the current fields and resets all four |
| Combobox.FilterByLabel | components/ui/combobox.tsx:33-35 | the result holds exactly the options whose lowercased label contains the lowercased search, each with as many copies as the options hold |
| Combobox.FilterIsSubsequence | components/ui/combobox.tsx:33-35 | the filter keeps the options in order |
| Combobox.EmptySearchShortcutAgrees | components/ui/combobox.tsx:31-32 | an empty search returns the options unchanged, which is what the filter itself would give |
| Combobox.FilteredOptionsProperties | components/ui/combobox.tsx:31-36 | the menu is an in-order subsequence of the options holding every copy of each matching option and nothing else; filtering it again changes nothing |
| Combobox.FilteredOptions | components/ui/combobox.tsx:31-36 | the menu's options; `EmptySearchShortcutAgrees` and `FilteredOptionsProperties` state what it holds |
| Combobox.FirstIndexOf | components/ui/combobox.tsx:29 | the index found is the first option with the value; none is found only when no option has it |
| Combobox.SelectedOption | components/ui/combobox.tsx:29 | the first option with the value; `ButtonShowsFirstMatch` and `RowsAgreeWithSelection` state it |
| Combobox.ButtonLabel | components/ui/combobox.tsx:48 | the button text; `ButtonShowsFirstMatch` states it |
| Combobox.ButtonShowsFirstMatch | components/ui/combobox.tsx:29-48 | the button shows the label of the first option with the value, or the placeholder when none has it |
| Combobox.RowOf | components/ui/combobox.tsx:74-85 | one menu row: the option's label, highlighted and checked for the current value; `RowsAgreeWithSelection` states exactly when |
| Combobox.RowsAgreeWithSelection | components/ui/combobox.tsx:74-85 | a row is highlighted and checked exactly when its value is the current value; the selected option's row is checked |
| Combobox.ComboboxState.constructor | components/ui/combobox.tsx:26-27 | the menu starts closed with an empty search |
| Combobox.ComboboxState.Menu | components/ui/combobox.tsx:51-91 | the open menu shows one row per filtered option, in order; the closed menu shows nothing |
| Combobox.ComboboxState.ButtonClicked | components/ui/combobox.tsx:46 | the button flips `open` and keeps the search |
| Combobox.ComboboxState.SearchTyped | components/ui/combobox.tsx:58 | the search becomes the typed text; the menu stays open |
| Combobox.ComboboxState.OptionClicked | components/ui/combobox.tsx:76-80 | picking the i-th shown option reports its value when a handler exists, closes the menu and clears the search |
| Combobox.ComboboxState.BackdropClicked | components/ui/combobox.tsx:96-99 | a backdrop click closes the menu and clears the search, reporting nothing |
| TagList.DisplayIsPrefix | components/tag-list.tsx:20 | the shown tags are the first ones in order: all of them with `showAll`, otherwise min(10, length) |
| TagList.ShortListShownWhole | components/tag-list.tsx:20 | with ten or fewer tags the whole list shows |
| TagList.DisplayTags | components/tag-list.tsx:20 | the shown tags; `DisplayIsPrefix` and `ShortListShownWhole` state which |
| TagList.MoreVisible | components/tag-list.tsx:51 | the "more" button shows for a long, collapsed list; `HiddenIffMoreVisible` states that it shows exactly when some tag is hidden |
| TagList.CollapseVisible | components/tag-list.tsx:62 | the collapse button shows for a long, expanded list; `ButtonsExclusive` states that it never shows with "more" |
| TagList.HasMore | components/tag-list.tsx:21 | more than ten tags; `HiddenIffMoreVisible` and `ButtonsExclusive` tie it to the buttons |
| TagList.HiddenIffMoreVisible | components/tag-list.tsx:20-21 | some tag is hidden exactly when the more button is offered |
| TagList.ButtonsExclusive | components/tag-list.tsx:51-67 | more and collapse never show together; one of them shows iff there are more than ten tags |
| TagList.Chips | components/tag-list.tsx:39-48 | one chip per shown tag, in order; a chip is highlighted exactly when it names the selected tag |
| TagList.Render | components/tag-list.tsx:16-72 | nothing renders for missing or empty tags; otherwise the window chips, with the highlights, the more and collapse buttons, and the clear button exactly when a non-empty tag is selected |
| TagList.TagListState.constructor | components/tag-list.tsx:14 | the list starts collapsed |
| TagList.TagListState.MoreClicked | components/tag-list.tsx:51-59 | more, offered only while tags are hidden, shows them all and then offers collapse |
| TagList.TagListState.CollapseClicked | components/tag-list.tsx:62-68 | collapse, offered only on a long expanded list, goes back to ten tags and then offers more |
| TagList.TagListState.ChipClicked | components/tag-list.tsx:23-27 | clicking a shown chip reports its name exactly when a handler exists |
| TagListWrapper.TagSelection.constructor | components/tag-context.tsx:14 | the shared selection starts with no tag, as "" |
| TagListWrapper.TagSelection.HandleTagClick | components/tag-list-wrapper.tsx:10-13 | a click selects the clicked name, so the same tag again stays selected and a different one replaces it |
| TagListWrapper.TagSelection.HandleUserSearchStart | components/tag-list-wrapper.tsx:16-18 | a user search clears the selection |
| TagListWrapper.TagSelection.Props | components/tag-list-wrapper.tsx:22-29 | the tag list's selected tag and the feed's tag filter are the same value |
| Validation.ParseUser | lib/validation.ts:4-6 | a user is accepted iff `name` is a string of length at least 1; otherwise the issue names `name` |
| Validation.ParsePost | lib/validation.ts:9-12 | a post is accepted iff `title` is a string of length at least 1 and `userId` is a number; each failing field, and only those, is reported |
| Validation.ParseComment | lib/validation.ts:15-18 | a comment is accepted iff `content` is a string of length at least 1 and `postId` is a number; each failing field, and only those, is reported |
| Validation.UserRoundTrip | lib/validation.ts:4-6 | a user with a non-empty name parses back from its payload |
| Validation.PostRoundTrip | lib/validation.ts:9-12 | a post input with a non-empty title parses back from its payload |
| Validation.CommentRoundTrip | lib/validation.ts:15-18 | a comment input with non-empty content parses back from its payload |
| Validation.PostIgnoresUnknownKeys | lib/validation.ts:9-12 | keys the schema does not name, such as `tags`, never change the result |
| Validation.WhitespaceIsAccepted | lib/validation.ts:5-16 | there is no trimming: every non-empty name, title or content, white space alone included, passes and is kept exactly as given |
| Validation.StringMin1Issues | lib/validation.ts:5 | `z.string().min(1)` on one field; `TooSmallIffEmpty` states that it reports too small exactly for "" and an invalid type for anything that is no string |
| Validation.NumberIssues | lib/validation.ts:11 | `z.number()` on one field; the `ParsePost` and `ParseComment` contracts state that the id field is reported exactly when it holds no number |
| Validation.TooSmallIffEmpty | lib/validation.ts:5-16 | for every value, `min(1)` reports too small exactly for the empty string, and anything that is no string is an invalid type |
| Validation.SchemaTooSmallIffEmpty | lib/validation.ts:4-18 | each schema reports its string field too small exactly when the field holds "" |
| Validation.EmptyStringIsTooSmall | lib/validation.ts:5-16 | examples: an empty title or content is too small, a missing name is an invalid type |
| Validation.MissingPostFieldsBothReported | lib/validation.ts:9-12 | an empty post payload reports both fields, in schema order |

## Left out

- The server actions and the database are left out. The server is an oracle: a page comes back through `PageArrived` as `{posts, hasMore}`, and its search semantics are not modelled. `getPosts` in actions/actions.ts takes no arguments, while the feed calls it with four; the model follows the feed's call. `getTags`, `getUsers` and the comment mutations are not modelled either.
- The server's `createPost` reads only `title` and `userId`, so the comma-joined `tags` entry is never stored. The model records this, and `SentFormRoundTrips` states only what the server reads.
- The caching library's freshness rules (staleTime, gcTime, refetch on focus, mount or reconnect) and refetching after an invalidation are left out. An invalidation is only counted in `invalidations`.
- The `alert("Validation failed")` on a rejected submit is left out; `Submit` only returns nothing sent and leaves the fields as they were.
- A post or comment mutation that is pending is left out. So are the disabled submit button it causes and the navigation after creating a post.
- Real time is left out. The 0, 100 and 500 ms timers and the intersection observer are events the caller fires in any order; no clock is modelled.
- Observer callbacks running with stale values are left out. `SentinelVisible` reads the current state.
- All markup, styling, the comment editor, the delete dialogs, the "Searching..." status line and the "No more posts" notes are left out.
- The clear-tag button's window event and the context and store that hold the selected tag are left out. `TagSelection` stands for them.
- The wrapper's `handleUserSearchStart` is a new function on every wrapper render. The debounce effect depends on it, but only restarts when the tag changes, so the model ties the restart to the tag change.
- Text.Trim: removes only the ASCII white-space characters, while JavaScript's `trim` also removes the Unicode spaces and line terminators.
- Text.ToLower: folds only ASCII letters.
- Text.NumberOf: models `Number(s)` only on blank text, which gives 0, and on optionally `-`-signed decimal integer text with ASCII white space around it. Every other text reads as no number. `Number` gives a number for several of them that `z.number()` accepts: `"+5"` is 5, `"0x1F"` is 31, `"1e3"` is 1000 and `"1.5"` is 1.5. So `AuthorPicked` and `ServerPayload` reject such texts where the source accepts them. The combobox only reports `id.toString()` texts, which `IdTextRoundTrip` reads back exactly, so the form never produces them.
- Numbers: only integers are modelled; `JsNumber` holds an `int`. Fractions, NaN and Infinity have no value here.
- Timeouts, retries and concurrency between server answers are left out. Answers are applied one at a time in the order the caller chooses. The caching library retries a failed page fetch three times by default, and components/providers.tsx sets no `retry`, so `RequestFailed` stands for the last failure after those retries.
