/**
 * The dashboard wires the form's `onSubmit` to the hook's `addBookmark`. The hook
 * itself accepts a blank title; the form's guard is what keeps one from reaching the
 * store through the page.
 */
module Session {
  import opened Wrappers
  import opened Text
  import opened Bookmarks
  import opened UseBookmarks
  import opened AddForm

  /**
   * One submission through the page: the form's guard, `addBookmark` on the fields as
   * typed, then the form settles as the call did. Whatever is sent has a non-empty,
   * trimmed title and url, and the hook's list is not touched. The form ends as its own
   * submit and settle steps say; `addBookmark` without a signed-in user resolves, so the
   * form then clears its fields as after a success.
   */
  method SubmitThroughPage(form: AddBookmarkForm, hook: BookmarksState, parse: UrlParser, reply: RowReply)
    returns (sent: Option<InsertRequest>)
    modifies form
    ensures sent.Some? ==> sent.value.title != [] && sent.value.url != []
    ensures sent.Some? ==> IsTrimmed(sent.value.title) && IsTrimmed(sent.value.url)
    ensures hook.bookmarks == old(hook.bookmarks)
    ensures SubmitStep(old(form.State())).1.None? ==> sent.None? && form.State() == old(form.State())
    ensures SubmitStep(old(form.State())).1.Some? ==>
              form.State() == SettleStep(SubmitStep(old(form.State())).0,
                                         hook.user.None? || (parse(old(form.url)).Some? && reply.rowError.None?))
  {
    var call := form.HandleSubmit();
    if call.None? {
      return None;
    }
    var result;
    sent, result := hook.AddBookmark(parse, call.value.title, call.value.url, reply);
    form.Settle(result.Resolved?);
  }

  /**
   * A fetch issued for an earlier user that settles after the switch still replaces the
   * list, and lowers `loading` while the new user's fetch is pending.
   */
  method StaleFetchApplies(a: UserId, b: UserId, rowsOfA: seq<Bookmark>) returns (hook: BookmarksState)
    ensures hook.user == Some(b) && hook.bookmarks == rowsOfA
    ensures !hook.loading && b in hook.pending
  {
    hook := new BookmarksState(Some(a));
    var _ := hook.UserChanged(Some(b));
    hook.FetchSettled(a, FetchResponse(Some(rowsOfA), None));
  }
}
