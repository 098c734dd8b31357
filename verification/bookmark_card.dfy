/**
 * The bookmark card: `getDomain`, which shows the bookmark's host without its first
 * "www." (or "Link" when the url does not parse), and the `isDeleting` and `copied` flags
 * around the delete and copy actions. The await in `handleDelete` splits it into two
 * atomic steps: `BeginDelete` up to the call and `EndDelete` in its `finally`.
 */
module Card {
  import opened Wrappers
  import opened Text
  import opened Bookmarks

  /**
   * `hostname.replace('www.', '')`: a hostname without "www." comes back as it is; any
   * other loses one "www." and is four characters shorter (`StripWwwAt` says which).
   */
  function StripWww(h: string): (d: string)
    ensures !Includes(h, "www.") ==> d == h
    ensures Includes(h, "www.") ==> |d| == |h| - 4
  {
    ReplaceFirst(h, "www.", "")
  }

  /** The "www." that goes is the first one, wherever it stands; the rest is kept. */
  lemma StripWwwAt(h: string, i: nat)
    requires OccursAt(h, "www.", i) && forall k :: 0 <= k < i ==> !OccursAt(h, "www.", k)
    ensures StripWww(h) == h[..i] + h[i + 4..]
  {
    ReplaceFirstAt(h, "www.", "", i);
    assert h[..i] + "" + h[i + 4..] == h[..i] + h[i + 4..];
  }

  /** `getDomain(url)`: "Link" when `new URL(url)` throws, else the stripped hostname. */
  function GetDomain(parse: UrlParser, url: string): (d: string)
    ensures parse(url).None? ==> d == "Link"
    ensures parse(url).Some? ==> d == StripWww(parse(url).value.hostname)
  {
    match parse(url)
    case None => "Link"
    case Some(p) => StripWww(p.hostname)
  }

  /** The usual case: a leading "www." goes. */
  lemma StripLeadingWww()
    ensures StripWww("www.google.com") == "google.com"
  {
    var h := "www.google.com";
    assert h[0..4] == "www.";
    StripWwwAt(h, 0);
    assert h[4..] == "google.com";
  }

  /** A "www." inside the hostname goes too, not only a leading one. */
  lemma StripInnerWww()
    ensures StripWww("mywww.site.org") == "mysite.org"
  {
    var h := "mywww.site.org";
    assert h[2..6] == "www.";
    assert !OccursAt(h, "www.", 0) by { assert h[0] != 'w'; }
    assert !OccursAt(h, "www.", 1) by { assert h[1] != 'w'; }
    StripWwwAt(h, 2);
    assert h[..2] == "my" && h[6..] == "site.org";
  }

  /** Only the first "www." goes. */
  lemma StripOnlyFirstWww()
    ensures StripWww("www.www.a.io") == "www.a.io"
  {
    var h := "www.www.a.io";
    assert h[0..4] == "www.";
    StripWwwAt(h, 0);
    assert h[4..] == "www.a.io";
  }

  class BookmarkCard {
    const bookmark: Bookmark
    var isDeleting: bool
    var copied: bool

    constructor(bookmark: Bookmark)
      ensures this.bookmark == bookmark && !isDeleting && !copied
    {
      this.bookmark := bookmark;
      isDeleting := false;
      copied := false;
    }

    /** `handleDelete` up to the `await`: raises `isDeleting` and calls `onDelete(bookmark.id)`. */
    method BeginDelete() returns (deletedId: string)
      modifies this`isDeleting
      ensures isDeleting && deletedId == bookmark.id
    {
      isDeleting := true;
      deletedId := bookmark.id;
    }

    /** The `finally` of `handleDelete`, whether `onDelete` resolved or rejected. */
    method EndDelete()
      modifies this`isDeleting
      ensures !isDeleting
    {
      isDeleting := false;
    }

    /** `handleCopyUrl`: the url goes to the clipboard and `copied` is raised. */
    method CopyUrl() returns (clipboardText: string)
      modifies this`copied
      ensures copied && clipboardText == bookmark.url
    {
      copied := true;
      clipboardText := bookmark.url;
    }

    /** The timer `handleCopyUrl` sets lowers `copied` again. */
    method CopiedTimerFired()
      modifies this`copied
      ensures !copied
    {
      copied := false;
    }
  }
}
