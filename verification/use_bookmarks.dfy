/**
 * The `useBookmarks` hook: the session's `bookmarks`, `loading` and `error` state, the
 * effect that runs whenever the signed-in user changes (clear for no user, otherwise
 * fetch and subscribe), the completion of that fetch, the realtime handler, and the
 * three mutation entry points. The entry points only validate, trim and hand a request
 * to the remote store; they have no `modifies` clause, so they cannot change the local
 * list. Each callback is one atomic step; remote replies are parameters.
 */
module UseBookmarks {
  import opened Wrappers
  import opened Text
  import opened Bookmarks
  import opened Realtime

  /** What the bulk `select` resolves to: `{ data, error }`. */
  datatype FetchResponse = FetchResponse(data: Option<seq<Bookmark>>, fetchError: Option<Thrown>)

  /** What a single-row `insert`/`update … .select().single()` resolves to. */
  datatype RowReply = RowReply(data: Option<Bookmark>, rowError: Option<Thrown>)

  /** The row `addBookmark` asks the store to insert. */
  datatype InsertRequest = InsertRequest(userId: UserId, title: string, url: string)

  /** The change `updateBookmark` asks the store to make to row `id`. */
  datatype UpdateRequest = UpdateRequest(id: string, title: string, url: string)

  /** How an `async` entry point settles: it resolves to a value or rejects with one. */
  datatype Settled<T> = Resolved(value: T) | Rejected(reason: Thrown)

  const FetchFallback := "Failed to fetch bookmarks"
  const InvalidUrlMessage := "Please enter a valid URL"

  /** The thrown value when `new URL(url)` fails inside `addBookmark`/`updateBookmark`. */
  const InvalidUrl := ErrorInstance(InvalidUrlMessage)

  /** How a row reply settles the call: `if (error) throw error; return data`. */
  function SettleRow(reply: RowReply): Settled<Option<Bookmark>> {
    match reply.rowError
    case Some(e) => Rejected(e)
    case None => Resolved(reply.data)
  }

  class BookmarksState {
    /** The signed-in user, from the auth context. */
    var user: Option<UserId>
    var bookmarks: seq<Bookmark>
    var loading: bool
    var error: Option<string>
    /** The user whose `bookmarks:<id>` realtime channel is open, if any. */
    var channel: Option<UserId>
    /**
     * The users whose bulk fetch has been issued and has not settled yet. The effect's
     * cleanup closes the channel but cancels no fetch, so one may still be pending for
     * an earlier user.
     */
    var pending: multiset<UserId>

    /** The effect's cleanup closes the previous channel and opens one only for a user. */
    ghost predicate Valid()
      reads this
    {
      channel == user
    }

    /** Mount: the initial state, then the effect's first run for the current user. */
    constructor(initialUser: Option<UserId>)
      ensures Valid() && user == initialUser
      ensures bookmarks == [] && error == None
      ensures loading <==> initialUser.Some?
      ensures pending == if initialUser.Some? then multiset{initialUser.value} else multiset{}
    {
      user := initialUser;
      bookmarks := [];
      loading := true;
      error := None;
      channel := None;
      pending := multiset{};
      new;
      var _ := RunEffect();
    }

    /**
     * The body of the effect: clear for no user, otherwise start the fetch and subscribe.
     * `fetchFor` is the user whose rows the fetch asks for; with no user nothing is fetched.
     */
    method RunEffect() returns (fetchFor: Option<UserId>)
      modifies this
      ensures fetchFor == user
      ensures Valid() && user == old(user)
      ensures user.None? ==> bookmarks == [] && !loading && error == old(error)
      ensures user.Some? ==> bookmarks == old(bookmarks) && loading && error == None
      ensures pending == old(pending) + if user.Some? then multiset{user.value} else multiset{}
    {
      channel := None;
      if user.None? {
        bookmarks := [];
        loading := false;
        return None;
      }
      // fetchBookmarks, up to its `await`
      loading := true;
      error := None;
      pending := pending + multiset{user.value};
      fetchFor := user;
      channel := user;
    }

    /** The user changed: the cleanup of the previous run, then the effect for the new user. */
    method UserChanged(newUser: Option<UserId>) returns (fetchFor: Option<UserId>)
      modifies this
      ensures fetchFor == newUser
      ensures Valid() && user == newUser
      ensures newUser.None? ==> bookmarks == [] && !loading && error == old(error)
      ensures newUser.Some? ==> bookmarks == old(bookmarks) && loading && error == None
      ensures pending == old(pending) + if newUser.Some? then multiset{newUser.value} else multiset{}
    {
      user := newUser;
      fetchFor := RunEffect();
    }

    /**
     * The bulk fetch issued for `fetchedFor` settles: on success the list becomes the
     * returned rows (none when `data` is null); on failure the list is kept and `error`
     * holds the message. Either way `loading` ends false. Nothing compares `fetchedFor`
     * with the current user: a fetch that settles after a user change still applies.
     */
    method FetchSettled(fetchedFor: UserId, response: FetchResponse)
      requires fetchedFor in pending
      modifies this`bookmarks, this`error, this`loading, this`pending
      ensures pending == old(pending) - multiset{fetchedFor}
      ensures !loading
      ensures response.fetchError.None? ==>
                && bookmarks == (if response.data.Some? then response.data.value else [])
                && error == old(error)
      ensures response.fetchError.Some? ==>
                && bookmarks == old(bookmarks)
                && error == Some(ErrorMessage(response.fetchError.value, FetchFallback))
    {
      match response.fetchError {
        case Some(e) =>
          error := Some(ErrorMessage(e, FetchFallback));
        case None =>
          bookmarks := if response.data.Some? then response.data.value else [];
      }
      loading := false;
      pending := pending - multiset{fetchedFor};
    }

    /** A realtime event arrives on the open channel; the handler runs only while one is subscribed. */
    method OnChange(p: Payload)
      requires channel.Some?
      modifies this`bookmarks
      ensures bookmarks == ApplyChange(old(bookmarks), p)
    {
      bookmarks := ApplyChange(bookmarks, p);
    }

    /**
     * `addBookmark(title, url)`: without a user it resolves to nothing and sends nothing;
     * with a URL `new URL` rejects it fails with "Please enter a valid URL" before any
     * request; otherwise it asks the store to insert the user's row with trimmed title
     * and url, and settles as the store's reply does.
     */
    method AddBookmark(parse: UrlParser, title: string, url: string, reply: RowReply)
      returns (sent: Option<InsertRequest>, result: Settled<Option<Bookmark>>)
      ensures sent.Some? <==> user.Some? && parse(url).Some?
      ensures user.None? ==> result == Resolved(None)
      ensures user.Some? && parse(url).None? ==> result == Rejected(InvalidUrl)
      ensures sent.Some? ==> sent.value == InsertRequest(user.value, Trim(title), Trim(url))
      ensures sent.Some? ==> IsTrimmed(sent.value.title) && IsTrimmed(sent.value.url)
      ensures sent.Some? ==> result == SettleRow(reply)
    {
      if user.None? {
        return None, Resolved(None);
      }
      if parse(url).None? {
        return None, Rejected(InvalidUrl);
      }
      TrimIdempotent(title);
      TrimIdempotent(url);
      sent := Some(InsertRequest(user.value, Trim(title), Trim(url)));
      result := SettleRow(reply);
    }

    /**
     * `updateBookmark(id, title, url)`: the same URL check and trimming as `addBookmark`,
     * but no check for a signed-in user.
     */
    method UpdateBookmark(parse: UrlParser, id: string, title: string, url: string, reply: RowReply)
      returns (sent: Option<UpdateRequest>, result: Settled<Option<Bookmark>>)
      ensures sent.Some? <==> parse(url).Some?
      ensures sent.None? ==> result == Rejected(InvalidUrl)
      ensures sent.Some? ==> sent.value == UpdateRequest(id, Trim(title), Trim(url))
      ensures sent.Some? ==> IsTrimmed(sent.value.title) && IsTrimmed(sent.value.url)
      ensures sent.Some? ==> result == SettleRow(reply)
    {
      if parse(url).None? {
        return None, Rejected(InvalidUrl);
      }
      TrimIdempotent(title);
      TrimIdempotent(url);
      sent := Some(UpdateRequest(id, Trim(title), Trim(url)));
      result := SettleRow(reply);
    }

    /** `deleteBookmark(id)`: always asks the store to delete `id`; rejects with its error. */
    method DeleteBookmark(id: string, deleteError: Option<Thrown>)
      returns (sent: string, result: Settled<()>)
      ensures sent == id
      ensures result.Rejected? <==> deleteError.Some?
      ensures result.Rejected? ==> result.reason == deleteError.value
    {
      sent := id;
      result := if deleteError.Some? then Rejected(deleteError.value) else Resolved(());
    }
  }
}
