/**
 * The derived view of the dashboard page: the search filter over the hook's bookmark
 * list (case-insensitive substring match on title or url, order kept), the count badge,
 * whether the search box is shown, and what the main area shows.
 */
module Dashboard {
  import opened Text
  import opened Bookmarks
  import opened Seqs

  /** The filter's test: the lower-cased title or url includes the lower-cased query. */
  predicate Matches(b: Bookmark, query: string)
    ensures query == [] ==> Matches(b, query)
  {
    IncludesEmpty(Lower(b.title));
    Includes(Lower(b.title), Lower(query)) || Includes(Lower(b.url), Lower(query))
  }

  /**
   * `filteredBookmarks`: the bookmarks that match, in their list order, each matching
   * row as often as the list holds it and no other row.
   */
  function Filter(bookmarks: seq<Bookmark>, query: string): (shown: seq<Bookmark>)
    ensures IsSubsequence(shown, bookmarks)
    ensures forall b :: b in shown <==> b in bookmarks && Matches(b, query)
    ensures forall b :: multiset(shown)[b] == if Matches(b, query) then multiset(bookmarks)[b] else 0
  {
    if bookmarks == [] then []
    else
      var rest := Filter(bookmarks[1..], query);
      assert multiset(bookmarks) == multiset{bookmarks[0]} + multiset(bookmarks[1..]) by {
        assert bookmarks == [bookmarks[0]] + bookmarks[1..];
      }
      if Matches(bookmarks[0], query) then
        assert ([bookmarks[0]] + rest)[1..] == rest;
        [bookmarks[0]] + rest
      else
        rest
  }

  /** The filtered list is never longer than the list it filters. */
  lemma FilterShorter(bookmarks: seq<Bookmark>, query: string)
    ensures |Filter(bookmarks, query)| <= |bookmarks|
  {
    SubsequenceBounds(Filter(bookmarks, query), bookmarks);
  }

  /** When every bookmark matches, the filter returns the list unchanged. */
  lemma {:induction false} FilterAllMatching(bookmarks: seq<Bookmark>, query: string)
    requires forall b :: b in bookmarks ==> Matches(b, query)
    ensures Filter(bookmarks, query) == bookmarks
  {
    if bookmarks != [] {
      assert bookmarks[0] in bookmarks;
      assert forall b :: b in bookmarks[1..] ==> b in bookmarks;
      FilterAllMatching(bookmarks[1..], query);
      assert bookmarks == [bookmarks[0]] + bookmarks[1..];
    }
  }

  /** The empty query shows every bookmark, in order. */
  lemma FilterEmptyQuery(bookmarks: seq<Bookmark>)
    ensures Filter(bookmarks, "") == bookmarks
  {
    forall b | b in bookmarks ensures Matches(b, "") {
      IncludesEmpty(Lower(b.title));
    }
    FilterAllMatching(bookmarks, "");
  }

  /** Filtering the filtered list again with the same query changes nothing. */
  lemma FilterIdempotent(bookmarks: seq<Bookmark>, query: string)
    ensures Filter(Filter(bookmarks, query), query) == Filter(bookmarks, query)
  {
    FilterAllMatching(Filter(bookmarks, query), query);
  }

  /** Queries that differ only in letter case select the same bookmarks. */
  lemma {:induction false} FilterIgnoresCase(bookmarks: seq<Bookmark>, q1: string, q2: string)
    requires Lower(q1) == Lower(q2)
    ensures Filter(bookmarks, q1) == Filter(bookmarks, q2)
  {
    if bookmarks != [] {
      FilterIgnoresCase(bookmarks[1..], q1, q2);
    }
  }

  /** A string without a space, lower-cased, does not include the one-space query. */
  lemma NoSpaceNoMatch(s: string)
    requires forall k :: 0 <= k < |s| ==> s[k] != ' '
    ensures !Includes(Lower(s), " ")
  {
    forall k | OccursAt(Lower(s), " ", k) ensures Lower(s)[k] == ' ' {
      assert Lower(s)[k..k + 1] == " ";
    }
  }

  /** The bookmark of the examples below. */
  function ReactDocs(): Bookmark {
    Bookmark("1", "u", "React", "https://react.dev", "", "")
  }

  /** "REACT" and "ReAcT" find the bookmark titled "React", whatever their letter case. */
  lemma SearchIgnoresCaseExample()
    ensures Filter([ReactDocs()], "REACT") == [ReactDocs()]
    ensures Filter([ReactDocs()], "ReAcT") == [ReactDocs()]
  {
    var b := ReactDocs();
    assert Lower("REACT") == "react";
    assert Lower(b.title) == "react";
    assert OccursAt(Lower(b.title), Lower("REACT"), 0);
    assert Matches(b, "REACT");
    assert Lower("ReAcT") == "react";
    FilterIgnoresCase([b], "ReAcT", "REACT");
  }

  /**
   * A query of one space is not trimmed to the empty query: it finds nothing in a
   * bookmark without spaces, where the empty query finds it.
   */
  lemma SpaceQueryIsNotEmptyQuery()
    ensures Filter([ReactDocs()], " ") == []
    ensures Filter([ReactDocs()], "") == [ReactDocs()]
  {
    var b := ReactDocs();
    assert Lower(" ") == " ";
    NoSpaceNoMatch(b.title);
    NoSpaceNoMatch(b.url);
    assert !Matches(b, " ");
    FilterEmptyQuery([b]);
  }

  /** What the area below the search box shows. */
  datatype MainView =
    | Spinner
    | EmptyState(headline: string, hint: string, addFirstButton: bool)
    | Cards(shown: seq<Bookmark>)

  /** The rendered dashboard: the count badge, the search box's presence, the main area. */
  datatype View = View(badge: nat, searchBox: bool, main: MainView)

  /**
   * The page below the form: the spinner exactly while loading, and a badge that never
   * counts more bookmarks than the list holds.
   */
  function Render(bookmarks: seq<Bookmark>, loading: bool, query: string): (v: View)
    ensures v.main.Spinner? <==> loading
    ensures v.badge <= |bookmarks|
    ensures v.searchBox <==> bookmarks != []
  {
    var shown := Filter(bookmarks, query);
    FilterShorter(bookmarks, query);
    View(
      |shown|,
      |bookmarks| > 0,
      if loading then Spinner
      else if |shown| == 0 then
        if |bookmarks| == 0 then
          EmptyState("No bookmarks yet", "Start by adding your first bookmark above", true)
        else
          EmptyState("No results found", "Try adjusting your search query", false)
      else
        Cards(shown))
  }

  /**
   * The badge counts the bookmarks that match, never more than the list holds and all of
   * them for the empty query; the search box is there exactly when the list is not empty.
   */
  lemma BadgeAndSearchBox(bookmarks: seq<Bookmark>, loading: bool, query: string)
    ensures Render(bookmarks, loading, query).badge == |Filter(bookmarks, query)| <= |bookmarks|
    ensures query == [] ==> Render(bookmarks, loading, query).badge == |bookmarks|
    ensures Render(bookmarks, loading, query).searchBox <==> bookmarks != []
  {
    FilterShorter(bookmarks, query);
    FilterEmptyQuery(bookmarks);
  }

  /**
   * Once loaded, the empty state shows exactly when nothing matches; its headline is
   * "No bookmarks yet" exactly when the list is empty and "No results found" otherwise,
   * and the first-bookmark hint and button appear exactly when the list is empty.
   */
  lemma EmptyStateChoice(bookmarks: seq<Bookmark>, query: string)
    ensures var v := Render(bookmarks, false, query);
            && (v.main.EmptyState? <==> Filter(bookmarks, query) == [])
            && (v.main.EmptyState? ==> (v.main.headline == "No bookmarks yet" <==> bookmarks == []))
            && (v.main.EmptyState? ==> (v.main.headline == "No results found" <==> bookmarks != []))
            && (v.main.EmptyState? ==> (v.main.addFirstButton <==> bookmarks == []))
            && (v.main.EmptyState? ==> (v.main.hint == "Start by adding your first bookmark above" <==> bookmarks == []))
  {
  }

  /**
   * "No results found" can only appear after the user typed a non-empty query into a
   * search box that is on the page.
   */
  lemma NoResultsNeedsQuery(bookmarks: seq<Bookmark>, loading: bool, query: string)
    requires Render(bookmarks, loading, query).main.EmptyState?
    requires Render(bookmarks, loading, query).main.headline == "No results found"
    ensures query != [] && Render(bookmarks, loading, query).searchBox
  {
    FilterEmptyQuery(bookmarks);
  }

  /**
   * The cards shown are the matching bookmarks in list order, as many as the badge says:
   * every matching bookmark gets a card, once for each time the list holds it.
   */
  lemma CardsAreMatches(bookmarks: seq<Bookmark>, loading: bool, query: string)
    requires Render(bookmarks, loading, query).main.Cards?
    ensures var v := Render(bookmarks, loading, query);
            && v.main.shown != [] && |v.main.shown| == v.badge
            && IsSubsequence(v.main.shown, bookmarks)
            && (forall b :: b in v.main.shown <==> b in bookmarks && Matches(b, query))
            && (forall b :: Matches(b, query) ==> multiset(v.main.shown)[b] == multiset(bookmarks)[b])
  {
  }
}
