/** The "explore all" page of the front end (MODXX/src/pages/client/ExploreAll.jsx):
    the recommended projects, minus the viewer's own, are shown nine at a
    time by an infinite-scroll loader, and projects applied to from the page
    are marked pending at once. */
module ExploreAll {
  import opened Common
  import Explore

  const PerPage: nat := 9

  /** A recommended project, with the fields the page uses. */
  datatype Listing = Listing(id: string, leaderId: string)

  function Min(a: int, b: int): int { if a <= b then a else b }

  /** `s.slice(start, end)` for 0 <= start <= end: the part of [start, end)
      that lies inside the list. */
  function Slice<T>(s: seq<T>, start: nat, end: nat): (r: seq<T>)
    requires start <= end
    ensures |r| == if start >= |s| then 0 else Min(end, |s|) - start
    ensures start < |s| ==> r == s[start..Min(end, |s|)]
  {
    if start >= |s| then [] else s[start..Min(end, |s|)]
  }

  /** The list kept after dropping the viewer's own projects. */
  function WithoutOwn(projects: seq<Listing>, user: Option<string>): (r: seq<Listing>)
    ensures forall p :: p in r <==> p in projects && (user.None? || p.leaderId != user.value)
  {
    if user.Some? then Filter(projects, (p: Listing) => p.leaderId != user.value) else projects
  }

  /** What `page` pages show: the first min(page * 9, length) projects. */
  function Shown(all: seq<Listing>, page: nat): (r: seq<Listing>)
    ensures |r| == Min(page * PerPage, |all|)
  {
    all[..Min(page * PerPage, |all|)]
  }

  /** Appending the next page's slice to what `page` pages show gives what
      `page + 1` pages show. */
  lemma NextPageExtends(all: seq<Listing>, page: nat)
    ensures Shown(all, page) + Slice(all, page * PerPage, page * PerPage + PerPage) == Shown(all, page + 1)
  {
    if page * PerPage < |all| {
      assert (page + 1) * PerPage == page * PerPage + PerPage;
      assert all[..page * PerPage] + all[page * PerPage..Min(page * PerPage + PerPage, |all|)]
          == all[..Min(page * PerPage + PerPage, |all|)];
    } else {
      assert Min((page + 1) * PerPage, |all|) == |all|;
    }
  }

  /** The next slice is empty exactly when the pages shown already cover the
      list; a load that finds it empty only switches `hasMore` off. */
  lemma EmptySliceAtEnd(all: seq<Listing>, page: nat)
    ensures Slice(all, page * PerPage, page * PerPage + PerPage) == [] <==> page * PerPage >= |all|
    ensures page * PerPage >= |all| ==> Shown(all, page) == all
  {
  }

  /** The page's state: the loaded list, what is displayed, the number of
      pages shown, the loader flags and the ids applied to from here. */
  class ExploreAllPage {
    var allProjects: seq<Listing>
    var displayed: seq<Listing>
    var page: nat
    var hasMore: bool
    var loadingMore: bool
    var applied: seq<string>

    /** What is displayed is exactly the first `page` pages of the list. */
    predicate Valid()
      reads this
    {
      page >= 1 && displayed == Shown(allProjects, page)
    }

    constructor ()
      ensures allProjects == [] && displayed == [] && page == 1
      ensures hasMore && !loadingMore && applied == []
      ensures Valid()
    {
      allProjects := [];
      displayed := [];
      page := 1;
      hasMore := true;
      loadingMore := false;
      applied := [];
    }

    /** fetchAllProjects as written: `fetched` is the recommendation list, or
        None when the request fails. Nothing happens without a signed-in
        user. The page counter is not reset, and a failed request clears only
        the loaded list. */
    method InitialLoad(user: Option<string>, fetched: Option<seq<Listing>>)
      modifies this
      ensures user.None? ==> allProjects == old(allProjects) && displayed == old(displayed) && hasMore == old(hasMore)
      ensures user.Some? && fetched.Some? ==>
        allProjects == WithoutOwn(fetched.value, user)
        && displayed == allProjects[..Min(PerPage, |allProjects|)]
        && hasMore == (|allProjects| > PerPage)
      ensures user.Some? && fetched.None? ==>
        allProjects == [] && displayed == old(displayed) && hasMore == old(hasMore)
      ensures page == old(page) && loadingMore == old(loadingMore) && applied == old(applied)
    {
      if user.Some? {
        if fetched.Some? {
          allProjects := WithoutOwn(fetched.value, user);
          displayed := allProjects[..Min(PerPage, |allProjects|)];
          hasMore := |allProjects| > PerPage;
        } else {
          allProjects := [];
        }
      }
    }

    /** The load with the page counter reset to one and, when the request
        fails, nothing left displayed: the displayed list is then always the
        first pages of the loaded list. */
    method Reload(user: Option<string>, fetched: Option<seq<Listing>>)
      modifies this
      ensures user.None? ==> allProjects == old(allProjects) && displayed == old(displayed) && page == old(page)
      ensures user.Some? && fetched.Some? ==>
        allProjects == WithoutOwn(fetched.value, user)
        && displayed == allProjects[..Min(PerPage, |allProjects|)]
        && hasMore == (|allProjects| > PerPage) && page == 1
      ensures user.Some? && fetched.None? ==> allProjects == [] && displayed == [] && page == 1
      ensures loadingMore == old(loadingMore) && applied == old(applied)
      ensures old(Valid()) ==> Valid()
    {
      if user.Some? {
        if fetched.Some? {
          allProjects := WithoutOwn(fetched.value, user);
          displayed := allProjects[..Min(PerPage, |allProjects|)];
          hasMore := |allProjects| > PerPage;
        } else {
          allProjects := [];
          displayed := [];
        }
        page := 1;
      }
    }

    /** loadMoreProjects, with the delayed callback run at once. */
    method LoadMore()
      modifies this
      ensures old(loadingMore) || !old(hasMore) ==>
        allProjects == old(allProjects) && displayed == old(displayed) && page == old(page)
        && hasMore == old(hasMore) && loadingMore == old(loadingMore)
      ensures !old(loadingMore) && old(hasMore) ==>
        var next := Slice(old(allProjects), old(page) * PerPage, old(page) * PerPage + PerPage);
        allProjects == old(allProjects) && !loadingMore
        && (next != [] ==> displayed == old(displayed) + next && page == old(page) + 1
                           && hasMore == (old(page) * PerPage + PerPage < |allProjects|))
        && (next == [] ==> displayed == old(displayed) && page == old(page) && !hasMore)
      ensures applied == old(applied)
      ensures old(Valid()) ==> Valid()
    {
      if loadingMore || !hasMore {
        return;
      }
      loadingMore := true;
      var start := page * PerPage;
      var end := start + PerPage;
      var next := Slice(allProjects, start, end);
      if Valid() {
        NextPageExtends(allProjects, page);
      }
      if |next| > 0 {
        displayed := displayed + next;
        page := page + 1;
        hasMore := end < |allProjects|;
      } else {
        hasMore := false;
      }
      loadingMore := false;
    }

    /** handleApply: a successful request appends the id. */
    method HandleApply(projectId: string, succeeded: bool)
      modifies this
      ensures applied == if succeeded then old(applied) + [projectId] else old(applied)
      ensures allProjects == old(allProjects) && displayed == old(displayed) && page == old(page)
    {
      if succeeded {
        applied := applied + [projectId];
      }
    }
  }

  /** What InitialLoad followed by LoadMore displays when the page counter
      was left at `page` by an earlier viewer: the first nine listings, then
      the listings of page `page + 1`. Whenever those pages differ from the
      second page, the displayed list is no longer a prefix of the loaded
      list: the listings in between are never shown. */
  lemma StaleCounterSkips(all: seq<Listing>, page: nat)
    requires page >= 2 && |all| > page * PerPage
    requires all[PerPage] != all[page * PerPage]
    ensures var shown := all[..Min(PerPage, |all|)] + Slice(all, page * PerPage, page * PerPage + PerPage);
      |shown| > PerPage && shown[PerPage] == all[page * PerPage] && shown != all[..|shown|]
  {
    var shown := all[..Min(PerPage, |all|)] + Slice(all, page * PerPage, page * PerPage + PerPage);
    assert shown[PerPage] == all[page * PerPage];
    assert all[..|shown|][PerPage] == all[PerPage];
  }

  /** A card is pending when the membership list or this page's applications
      name it; a successful apply makes it pending at once. */
  lemma AppliedIsPending(pending: seq<string>, applied: seq<string>, id: string)
    ensures Explore.IsPending(id, pending, applied + [id])
  {
    assert (applied + [id])[|applied|] == id;
  }
}
