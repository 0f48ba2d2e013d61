/** The home page's list: the memes of the active tab, ranked, and cut to the
    number of memes made visible so far by "Load More". */
module HomePage {
  import opened MemeContext
  import opened Sorting

  const DayMs: int := 24 * 60 * 60 * 1000
  const WeekMs: int := 7 * DayMs

  /** Memes shown at first, and added by each "Load More". */
  const PageSize: nat := 6

  /** The tab names the switch recognises; any other tab keeps store order. */
  const KnownTabs: set<string> := {"new", "top-day", "top-week", "top-all"}

  /** The tab's list before pagination, built on a copy of the collection:
      "new" sorts every meme newest first; "top-day" and "top-week" keep the
      memes created in the last 24 hours or 7 days before `now` and sort them
      by score; "top-all" sorts every meme by score; any other tab leaves the
      collection as it is. Every sort is stable (see `RankedKeepsTies`). */
  function Ranked(memes: seq<Meme>, tab: string, now: int): (r: seq<Meme>)
    ensures multiset(r) <= multiset(memes)
    ensures tab == "new" ==> multiset(r) == multiset(memes) && SortedDesc(r, CreationTime)
    ensures tab == "top-day" ==>
      && SortedDesc(r, Score)
      && forall m :: multiset(r)[m] == if m.createdAt >= now - DayMs then multiset(memes)[m] else 0
    ensures tab == "top-week" ==>
      && SortedDesc(r, Score)
      && forall m :: multiset(r)[m] == if m.createdAt >= now - WeekMs then multiset(memes)[m] else 0
    ensures tab == "top-all" ==> multiset(r) == multiset(memes) && SortedDesc(r, Score)
    ensures tab !in KnownTabs ==> r == memes
  {
    if tab == "new" then SortDesc(memes, CreationTime)
    else if tab == "top-day" then
      FilterCounts(memes, CreatedSince(now - DayMs));
      SortDesc(Filter(memes, CreatedSince(now - DayMs)), Score)
    else if tab == "top-week" then
      FilterCounts(memes, CreatedSince(now - WeekMs));
      SortDesc(Filter(memes, CreatedSince(now - WeekMs)), Score)
    else if tab == "top-all" then SortDesc(memes, Score)
    else memes
  }

  /** `getFilteredMemes()`: the first `visible` memes of the tab's list, or all
      of it when it is shorter. */
  function FilteredMemes(memes: seq<Meme>, tab: string, now: int, visible: nat): (r: seq<Meme>)
    ensures var ranked := Ranked(memes, tab, now);
      && |r| == (if visible < |ranked| then visible else |ranked|)
      && r == ranked[..|r|]
    ensures forall m :: m in r ==> m in memes
  {
    var ranked := Ranked(memes, tab, now);
    var r := ranked[..if visible < |ranked| then visible else |ranked|];
    assert forall m :: m in r ==> m in multiset(ranked);
    r
  }

  /** Ties keep store order: within one score (or one creation time for
      "new"), the tab's list has the memes in the order the collection has
      them. */
  lemma RankedKeepsTies(memes: seq<Meme>, tab: string, now: int, k: int)
    ensures tab == "new" ==> WithKey(Ranked(memes, tab, now), CreationTime, k) == WithKey(memes, CreationTime, k)
    ensures tab == "top-all" ==> WithKey(Ranked(memes, tab, now), Score, k) == WithKey(memes, Score, k)
    ensures tab == "top-day" ==>
      WithKey(Ranked(memes, tab, now), Score, k) == WithKey(Filter(memes, CreatedSince(now - DayMs)), Score, k)
    ensures tab == "top-week" ==>
      WithKey(Ranked(memes, tab, now), Score, k) == WithKey(Filter(memes, CreatedSince(now - WeekMs)), Score, k)
  {
    if tab == "new" {
      SortDescStable(memes, CreationTime, k);
    } else if tab == "top-day" {
      SortDescStable(Filter(memes, CreatedSince(now - DayMs)), Score, k);
    } else if tab == "top-week" {
      SortDescStable(Filter(memes, CreatedSince(now - WeekMs)), Score, k);
    } else if tab == "top-all" {
      SortDescStable(memes, Score, k);
    }
  }

  /** A meme created at `now`, prepended to memes none of which is newer,
      heads the "new" tab. */
  lemma CreatedMemeHeadsNewTab(memes: seq<Meme>, m: Meme, now: int)
    requires m.createdAt == now
    requires forall x :: x in memes ==> x.createdAt <= now
    ensures Ranked([m] + memes, "new", now)[0] == m
  {
    var all := [m] + memes;
    assert all[0] == m && all[1..] == memes;
    var sorted := SortDesc(memes, CreationTime);
    if sorted != [] {
      assert sorted[0] in multiset(memes);
    }
    assert SortDesc(all, CreationTime) == Insert(m, sorted, CreationTime);
  }

  /** When "Load More" is no longer offered, nothing of the tab's list is
      hidden. */
  lemma NoMoreToLoadShowsAll(memes: seq<Meme>, tab: string, now: int, visible: nat)
    requires !(visible < |memes|)
    ensures FilteredMemes(memes, tab, now, visible) == Ranked(memes, tab, now)
  {
    var ranked := Ranked(memes, tab, now);
    assert |ranked| == |multiset(ranked)| <= |multiset(memes)| == |memes|;
  }

  /** "Load More" can be offered on a tab that is already fully shown: seven
      memes, all older than a day, leave "top-day" empty while the first page
      of six is still smaller than the collection. */
  lemma LoadMoreOfferedOnFullTab()
    ensures var m := SeedMemes[0];
      var memes := [m, m, m, m, m, m, m];
      var now := m.createdAt + 2 * DayMs;
      && PageSize < |memes|
      && Ranked(memes, "top-day", now) == []
      && FilteredMemes(memes, "top-day", now, PageSize) == Ranked(memes, "top-day", now)
  {
  }

  /** The paging state of the home page. */
  class HomePageState {
    var visibleMemes: nat

    /** A whole number of pages is visible. */
    ghost predicate Valid()
      reads this
    {
      visibleMemes >= PageSize && visibleMemes % PageSize == 0
    }

    constructor ()
      ensures Valid() && visibleMemes == PageSize
    {
      visibleMemes := PageSize;
    }

    /** `handleLoadMore`: one more page. */
    method LoadMore()
      requires Valid()
      modifies this
      ensures Valid() && visibleMemes == old(visibleMemes) + PageSize
    {
      visibleMemes := visibleMemes + PageSize;
    }

    /** The tab change handler: sets the store's active tab and goes back to
        one page. */
    method ChangeTab(store: MemeStore, value: string)
      modifies this, store
      ensures Valid() && visibleMemes == PageSize
      ensures store.activeTab == value && store.memes == old(store.memes)
    {
      store.SetActiveTab(value);
      visibleMemes := PageSize;
    }

    /** `hasMoreToLoad`: measured against the whole collection, not the tab's
        list, so it can be true on a tab that is already fully shown; when it
        is false, `NoMoreToLoadShowsAll` applies. */
    function HasMoreToLoad(store: MemeStore): bool
      reads this, store
    {
      visibleMemes < |store.memes|
    }
  }
}
