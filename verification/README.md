# Smart Bookmarks client: a Dafny model of the bookmark list and its UI rules

This project models the client-side core of the Smart Bookmarks web app. A signed-in
user keeps a list of URL bookmarks, and every open tab stays up to date through a
realtime change feed. The model covers:

- **`useBookmarks`** (`use_bookmarks.dfy`, `realtime.dfy`). This hook owns the session
  state: `bookmarks`, `loading`, `error`, and the open realtime channel. Its effect runs
  whenever the user changes. With no user it clears the list. With a user it starts the
  bulk fetch and opens the channel. The fetch later settles, replacing the list or
  recording an error. The realtime handler turns each change event into a new list:
  - INSERT prepends the row.
  - UPDATE replaces the rows with the payload's id.
  - DELETE filters that id out.
  - Any other event type does nothing.

  `addBookmark` and `updateBookmark` validate the URL and trim the fields;
  `deleteBookmark` only names the id. All three build a request for the remote store.
  They are methods without a `modifies` clause, so Dafny checks that they never change
  the local list. Only the effect (clearing it when there is no user), the fetch and the
  realtime handler change it.
- **The dashboard** (`dashboard.dfy`). The search filter is a case-insensitive substring
  match on title or url, and it keeps the list order. Around it sit the count badge, the
  presence of the search box, and the choice between spinner, empty state and cards.
- **The add form** (`add_form.dfy`). `handleSubmit` refuses blank fields, raises
  `isSubmitting`, passes the fields untrimmed to `onSubmit`, clears them only on
  success, and lowers `isSubmitting` in its `finally`. `isDisabled` is modelled too.
- **The bookmark card** (`bookmark_card.dfy`). `getDomain` removes the first `"www."`
  from the hostname or falls back to `"Link"`. The `isDeleting` and `copied` flags are
  modelled around their actions.
- **`session.dfy`** wires the form's submission to `addBookmark`, as the dashboard does.
- **`text.dfy`** holds the JavaScript string operations used above: `trim`,
  `toLowerCase`, `includes` and a string-pattern `replace`. Both of the last two are
  built on a first-occurrence search, `indexOf`. **`seqs.dfy`** defines the
  order-preserving selection that `filter` produces.

The network, the URL parser and the auth context are outside the model:
- Every reply from the remote store is a parameter: `FetchResponse`, `RowReply`, or the
  error of a delete.
- `new URL(text)` is a parameter `parse: string -> Option<ParsedUrl>`. Nothing is assumed
  about which strings it accepts.
- The current user is a field that `UserChanged` sets.
- Each callback is one atomic step. An `await` splits a handler into the step before the
  call and the step after it.

Where a bookmark store might be expected to deduplicate, upsert or re-sort, this model follows the code:
- INSERT does not deduplicate, so a redelivered row appears twice (`InsertDuplicates`).
- UPDATE of an absent id inserts nothing (`UpdateAbsentIsNoop`).
- Nothing re-sorts the list; order comes only from the server query.
- There is no optimistic delete and no compensating re-insert.
- The handler does not check the owner of a row.
- `addBookmark` does not reject a blank title. Only the form's guard keeps one from the
  store (`SubmitThroughPage`).
- A whitespace-only search query is not treated as empty (`SpaceQueryIsNotEmptyQuery`).
- A user change closes the channel but cancels no fetch. A fetch issued for the previous
  user that settles later still replaces the list and lowers `loading`, even while the new
  user's fetch is pending (`StaleFetchApplies`).
- `addBookmark` without a signed-in user resolves instead of rejecting, so the form then
  clears its fields as after a success (`SubmitThroughPage`).

## Model

| member | source | states |
|---|---|---|
| `Realtime.ApplyChange` | smart-bookmark-app/client/src/hooks/useBookmarks.ts:63-73 | only INSERT lengthens the list (by one), UPDATE keeps its length, DELETE keeps an order-preserving selection of it, and any other event type leaves it unchanged |
| `Realtime.InsertRow` | smart-bookmark-app/client/src/hooks/useBookmarks.ts:65 | the payload row comes first, followed by the whole previous list unchanged |
| `Realtime.InsertPrepends` | smart-bookmark-app/client/src/hooks/useBookmarks.ts:64-65 | INSERT gives a list one longer: its head is the payload row, its tail is the previous list unchanged, and the payload's id occurs once more than before |
| `Realtime.InsertDuplicates` | smart-bookmark-app/client/src/hooks/useBookmarks.ts:64-65 | an INSERT whose id is already in the list leaves at least two rows with that id (no dedup) |
| `Realtime.UpdateRow` | smart-bookmark-app/client/src/hooks/useBookmarks.ts:67-69 | the mapped list has the same length; position i holds the payload if the old row there had its id, otherwise the old row |
| `Realtime.UpdateReplacesInPlace` | smart-bookmark-app/client/src/hooks/useBookmarks.ts:66-69 | UPDATE keeps the length and every position; each row with the payload's id becomes the payload, every other row is unchanged |
| `Realtime.UpdateKeepsIds` | smart-bookmark-app/client/src/hooks/useBookmarks.ts:66-69 | UPDATE leaves the id at every position unchanged, so the number of rows with any given id stays the same: it neither inserts nor drops |
| `Realtime.UpdateAbsentIsNoop` | smart-bookmark-app/client/src/hooks/useBookmarks.ts:66-69 | an UPDATE for an id not in the list returns the list unchanged; it does not insert |
| `Realtime.UpdateIdempotent` | smart-bookmark-app/client/src/hooks/useBookmarks.ts:66-69 | applying the same UPDATE twice equals applying it once |
| `Realtime.DeleteRow` | smart-bookmark-app/client/src/hooks/useBookmarks.ts:71 | the filtered list is a subsequence of the old one (order kept) and holds exactly the old rows whose id differs |
| `Realtime.DeleteRemovesAll` | smart-bookmark-app/client/src/hooks/useBookmarks.ts:70-71 | DELETE keeps the survivors in relative order, leaves no row with the id, keeps every row with another id, and shrinks the list by exactly the number of rows that had the id |
| `Realtime.DeleteIdempotent` | smart-bookmark-app/client/src/hooks/useBookmarks.ts:70-71 | applying the same DELETE twice equals applying it once |
| `Realtime.DeleteAbsentIsNoop` | smart-bookmark-app/client/src/hooks/useBookmarks.ts:70-71 | a DELETE for an id not in the list returns the list unchanged |
| `Realtime.OtherEventIsNoop` | smart-bookmark-app/client/src/hooks/useBookmarks.ts:63-73 | an event whose type is not INSERT, UPDATE or DELETE leaves the list unchanged |
| `Realtime.DeleteAfterInsert` | smart-bookmark-app/client/src/hooks/useBookmarks.ts:64-71 | an INSERT followed by a DELETE of the same id gives the same list as the DELETE alone, duplicates included |
| `Realtime.CountZeroIffAbsent` | smart-bookmark-app/client/src/hooks/useBookmarks.ts:68-71 | the count of rows with an id is zero exactly when no row carries that id |
| `UseBookmarks.BookmarksState.constructor` | smart-bookmark-app/client/src/hooks/useBookmarks.ts:17-31 | on mount the list is empty and there is no error. `loading` stays true only when a user is present; then one fetch for that user is pending and the open channel is the user's |
| `UseBookmarks.BookmarksState.RunEffect` | smart-bookmark-app/client/src/hooks/useBookmarks.ts:22-79 | with no user nothing is fetched, the list becomes empty, `loading` false, and no channel is open. With a user one fetch for that user is issued and added to the pending ones; the list is kept while `loading` is raised, `error` is cleared and the user's channel is open |
| `UseBookmarks.BookmarksState.UserChanged` | smart-bookmark-app/client/src/hooks/useBookmarks.ts:22-80 | a user change closes the old channel, leaves earlier fetches pending, and reruns the effect for the new user: a fetch only for a user, and a channel that never outlives its user |
| `UseBookmarks.BookmarksState.FetchSettled` | smart-bookmark-app/client/src/hooks/useBookmarks.ts:33-47 | only a pending fetch can settle, and it is then no longer pending. On success the list becomes the rows, or the empty list when `data` is null; on failure the list is kept and `error` becomes the thrown `Error`'s message, or 'Failed to fetch bookmarks' for any other thrown value. `loading` ends false either way, whichever user the fetch was for |
| `UseBookmarks.BookmarksState.OnChange` | smart-bookmark-app/client/src/hooks/useBookmarks.ts:63-73 | a realtime event on the open channel replaces the list by the handler's result and changes nothing else |
| `UseBookmarks.BookmarksState.AddBookmark` | smart-bookmark-app/client/src/hooks/useBookmarks.ts:82-119 | A request is sent iff a user is present and the URL parses. With no user the call resolves to nothing; with a bad URL it rejects with 'Please enter a valid URL' before any request. The request is the user's id with trimmed title and url, both provably trimmed; the call settles as the reply does; the local list cannot change |
| `UseBookmarks.BookmarksState.UpdateBookmark` | smart-bookmark-app/client/src/hooks/useBookmarks.ts:137-167 | the same URL check and trimming as adding, without a user check; the request targets the given id; the local list cannot change |
| `UseBookmarks.BookmarksState.DeleteBookmark` | smart-bookmark-app/client/src/hooks/useBookmarks.ts:121-135 | the request always names the given id; the call rejects exactly when the store reports an error, with that error; the local list cannot change |
| `Dashboard.Matches` | smart-bookmark-app/client/src/pages/Dashboard.tsx:27-28 | every bookmark matches the empty query |
| `Dashboard.Filter` | smart-bookmark-app/client/src/pages/Dashboard.tsx:26-29 | the result is an order-preserving subsequence of the bookmarks. A bookmark is in it iff it is in the list and its lower-cased title or url includes the lower-cased query. Each matching row appears as often as in the list, and no other row appears |
| `Dashboard.FilterShorter` | smart-bookmark-app/client/src/pages/Dashboard.tsx:26-29 | the filtered list is never longer than the list |
| `Dashboard.FilterAllMatching` | smart-bookmark-app/client/src/pages/Dashboard.tsx:26-29 | when every bookmark matches, the filter returns the list unchanged |
| `Dashboard.FilterEmptyQuery` | smart-bookmark-app/client/src/pages/Dashboard.tsx:26-29 | the empty query returns every bookmark unchanged, in order |
| `Dashboard.FilterIdempotent` | smart-bookmark-app/client/src/pages/Dashboard.tsx:26-29 | filtering the filtered list again with the same query changes nothing |
| `Dashboard.FilterIgnoresCase` | smart-bookmark-app/client/src/pages/Dashboard.tsx:26-29 | two queries that lower-case to the same string select the same bookmarks |
| `Dashboard.SearchIgnoresCaseExample` | smart-bookmark-app/client/src/hooks/useBookmarks.test.ts:150-164 | "REACT" and "ReAcT" both find the bookmark titled "React" |
| `Dashboard.SpaceQueryIsNotEmptyQuery` | smart-bookmark-app/client/src/pages/Dashboard.tsx:26-29 | a one-space query is not trimmed: it finds nothing in a bookmark without spaces, which the empty query finds |
| `Dashboard.Render` | smart-bookmark-app/client/src/pages/Dashboard.tsx:76-134 | the spinner shows exactly while loading, the badge never counts more than the list holds, and the search box shows iff the list is non-empty |
| `Dashboard.BadgeAndSearchBox` | smart-bookmark-app/client/src/pages/Dashboard.tsx:76-92 | the badge is the filtered length, at most the list length and equal to it for the empty query; the search box is shown iff the list is non-empty |
| `Dashboard.EmptyStateChoice` | smart-bookmark-app/client/src/pages/Dashboard.tsx:103-124 | once loaded, the empty state shows iff nothing matches; its headline is 'No bookmarks yet' iff the list is empty, and 'No results found' iff it is not; the 'add your first bookmark' hint and the 'Add First Bookmark' button show iff the list is empty |
| `Dashboard.NoResultsNeedsQuery` | smart-bookmark-app/client/src/pages/Dashboard.tsx:81-115 | 'No results found' is only shown for a non-empty query typed into a search box that is on the page |
| `Dashboard.CardsAreMatches` | smart-bookmark-app/client/src/pages/Dashboard.tsx:125-134 | the cards shown are a non-empty, order-preserving selection of the bookmarks, as many as the badge counts. A bookmark has a card iff it matches, and each matching bookmark gets as many cards as the list holds copies of it |
| `AddForm.Disabled` | smart-bookmark-app/client/src/components/AddBookmarkForm.tsx:34 | when the button is enabled, submitting calls `onSubmit` |
| `AddForm.SubmitStep` | smart-bookmark-app/client/src/components/AddBookmarkForm.tsx:17-26 | `onSubmit` is called iff neither field is blank after trimming, with the fields as typed, and `isSubmitting` is then raised. Submitting never changes the fields or `isLoading` |
| `AddForm.SettleStep` | smart-bookmark-app/client/src/components/AddBookmarkForm.tsx:26-31 | `isSubmitting` is lowered whatever the outcome and `isLoading` is kept. Success empties both fields; failure keeps them as they were |
| `AddForm.BlankSubmitChangesNothing` | smart-bookmark-app/client/src/components/AddBookmarkForm.tsx:20-22 | a blank-after-trim title or url makes submit call nothing and change no state |
| `AddForm.SubmitPassesFieldsAsTyped` | smart-bookmark-app/client/src/components/AddBookmarkForm.tsx:24-26 | otherwise `onSubmit` receives the untrimmed title and url as typed, `isSubmitting` is raised, and the button is disabled |
| `AddForm.LockedIgnoresEdits` | smart-bookmark-app/client/src/components/AddBookmarkForm.tsx:49-71 | while submitting or loading the inputs are disabled, so no sequence of edits changes the form |
| `AddForm.SuccessClearsFields` | smart-bookmark-app/client/src/components/AddBookmarkForm.tsx:24-34 | after a successful submission both fields are empty and `isSubmitting` is false, and the button is disabled because the fields are blank. This holds whatever was typed meanwhile |
| `AddForm.FailureKeepsFields` | smart-bookmark-app/client/src/components/AddBookmarkForm.tsx:24-34 | after a failed submission the fields hold exactly what was submitted and `isSubmitting` is false, whatever was typed meanwhile. The button is disabled iff the page is loading |
| `AddForm.AddBookmarkForm.constructor` | smart-bookmark-app/client/src/components/AddBookmarkForm.tsx:12-15 | the form starts with empty fields, not submitting, with the given `isLoading` |
| `AddForm.AddBookmarkForm.Type` | smart-bookmark-app/client/src/components/AddBookmarkForm.tsx:49-71 | an edit sets its field unless the inputs are disabled (submitting or loading) |
| `AddForm.AddBookmarkForm.SetLoading` | smart-bookmark-app/client/src/components/AddBookmarkForm.tsx:12 | a new `isLoading` prop changes only `isLoading` |
| `AddForm.AddBookmarkForm.HandleSubmit` | smart-bookmark-app/client/src/components/AddBookmarkForm.tsx:17-26 | the new state and the call made are those of the submit step: nothing for blank fields, otherwise `isSubmitting` and a call with the fields as typed |
| `AddForm.AddBookmarkForm.Settle` | smart-bookmark-app/client/src/components/AddBookmarkForm.tsx:26-31 | on success the fields are cleared; `isSubmitting` is lowered whether the call succeeded or failed |
| `Session.SubmitThroughPage` | smart-bookmark-app/client/src/pages/Dashboard.tsx:70 | a submission through the page never sends a blank title or url: whatever reaches the store is non-empty and trimmed, and the hook's list is untouched. The form ends in its submit-then-settle state. Success here means there is no user, or the URL parses and the store reports no error |
| `Session.StaleFetchApplies` | smart-bookmark-app/client/src/hooks/useBookmarks.ts:29-50 | after a switch from user a to user b, a's fetch settling still replaces the list with a's rows and lowers `loading` while b's fetch is pending |
| `Card.GetDomain` | smart-bookmark-app/client/src/components/BookmarkCard.tsx:34-41 | 'Link' when the URL parser rejects the url, otherwise the parsed hostname after the "www." stripping below |
| `Card.StripWww` | smart-bookmark-app/client/src/components/BookmarkCard.tsx:37 | a hostname without "www." is shown unchanged; any other comes out exactly four characters shorter |
| `Card.StripWwwAt` | smart-bookmark-app/client/src/components/BookmarkCard.tsx:37 | the "www." removed is the first one, wherever it stands (not only at the start); what precedes and follows it is kept |
| `Card.StripLeadingWww` | smart-bookmark-app/client/src/components/BookmarkCard.tsx:37 | "www.google.com" is shown as "google.com" |
| `Card.StripInnerWww` | smart-bookmark-app/client/src/components/BookmarkCard.tsx:37 | "mywww.site.org" is shown as "mysite.org": a "www." inside the hostname is removed too |
| `Card.StripOnlyFirstWww` | smart-bookmark-app/client/src/components/BookmarkCard.tsx:37 | "www.www.a.io" is shown as "www.a.io": only the first occurrence goes |
| `Card.BookmarkCard.constructor` | smart-bookmark-app/client/src/components/BookmarkCard.tsx:15-16 | a card starts neither deleting nor showing "copied" |
| `Card.BookmarkCard.BeginDelete` | smart-bookmark-app/client/src/components/BookmarkCard.tsx:25-28 | `isDeleting` is true while the call is pending, and `onDelete` is called with the card's bookmark id |
| `Card.BookmarkCard.EndDelete` | smart-bookmark-app/client/src/components/BookmarkCard.tsx:29-31 | `isDeleting` ends false whether the delete succeeded or failed |
| `Card.BookmarkCard.CopyUrl` | smart-bookmark-app/client/src/components/BookmarkCard.tsx:18-21 | the bookmark's url is what goes to the clipboard, and `copied` is raised |
| `Card.BookmarkCard.CopiedTimerFired` | smart-bookmark-app/client/src/components/BookmarkCard.tsx:22 | the timer lowers `copied` |
| `Text.Lower` | smart-bookmark-app/client/src/pages/Dashboard.tsx:27-28 | each character is lowered in place: the length is kept and no upper-case ASCII letter remains |
| `Text.Trim` | smart-bookmark-app/client/src/hooks/useBookmarks.ts:102-103 | the result is the infix of the input that starts at its first non-whitespace character, with only whitespace before and after it, and it neither starts nor ends with whitespace |
| `Text.BlankIffAllWhitespace` | smart-bookmark-app/client/src/components/AddBookmarkForm.tsx:20 | `!s.trim()` holds iff every character of `s` is whitespace |
| `Text.TrimIdempotent` | smart-bookmark-app/client/src/hooks/useBookmarks.ts:102-103 | trimming an already trimmed string changes nothing |
| `Text.IndexOf` | smart-bookmark-app/client/src/components/BookmarkCard.tsx:37 | a found index is an occurrence with none before it; nothing is found iff there is no occurrence at all |
| `Text.Includes` | smart-bookmark-app/client/src/pages/Dashboard.tsx:27-28 | `includes` holds iff the pattern occurs somewhere |
| `Text.ReplaceFirst` | smart-bookmark-app/client/src/components/BookmarkCard.tsx:37 | with no occurrence the string is unchanged; otherwise one occurrence is replaced, so the length changes by the difference of the two lengths |
| `Text.ReplaceFirstAt` | smart-bookmark-app/client/src/components/BookmarkCard.tsx:37 | the occurrence replaced is the first one: the result is everything before it, the replacement, then everything after it |

## Left out

- Remote calls (`select`, `insert`, `update`, `delete`, the channel's `subscribe` and `unsubscribe`): their results are parameters; the channel is only the field naming whose rows it carries.
- `new URL(text)` and `hostname` (the WHATWG URL parser): a parameter of every member that parses, with nothing assumed about it; the `ftp://` and `htp://` expectations in the test file depend on that parser and are not modelled.
- Text.Lower: lower-cases ASCII letters only, where JavaScript's `toLowerCase` maps all of Unicode; the search lemmas hold for this lowering.
- Text.IsWhitespace: works on Unicode scalar values, where JavaScript strings are UTF-16 code units.
- Text.ReplaceFirst: inserts the replacement literally, without expanding `$&`, `$$` and the other `$` patterns; the only replacement used is `""`.
- Text.IndexFrom: does not clamp a start index past the end of the string as `indexOf` does; the only search used starts at 0.
- Async interleaving: each callback is one atomic step. Pending fetches may settle in any order, but the time at which they settle is not modelled.
- Toasts, the two-second delay before `copied` is lowered (only the timer's firing is a step), the confirmation dialog, date formatting and all markup.
- Render-time React semantics: `UserChanged` stands for one run of the effect with its cleanup; `useCallback` memoisation is not modelled.
- The sorting test in the test file: it sorts a local copy, and the hook never sorts.
- The auth pages, routing, sign-out and the environment checks of the Supabase client.
