/**
 * The chain of index pages `get_data` walks through by following `next`
 * links. The site is a finite sequence: `site[0]` is the page handed to
 * `get_data`, and `site[k + 1]` is what the browser renders when asked for
 * the next link of `site[k]`.
 */
module Pagination {
  import opened Listing
  import opened Seqs

  /** The page has a truthy `data-tracking-value='next'` href. */
  predicate HasNext(p: IndexPage)
  {
    Truthy(p.nextHref)
  }

  /** The pages `get_data` processes, in order. */
  function Visited(site: seq<IndexPage>): (v: seq<IndexPage>)
    ensures |v| <= |site| && v == site[..|v|]
    ensures site != [] ==> v != []
  {
    if site == [] then []
    else [site[0]] + (if HasNext(site[0]) then Visited(site[1..]) else [])
  }

  /** The walk reaches a page with no next link within the site (and exports). */
  predicate Finishes(site: seq<IndexPage>)
  {
    site != [] && (HasNext(site[0]) ==> Finishes(site[1..]))
  }

  /** All rows extracted from `pages`, page after page. */
  function Harvest(pages: seq<IndexPage>): seq<Row>
  {
    if pages == [] then [] else RowsOf(pages[0].anchors) + Harvest(pages[1..])
  }

  /** The rows of a walk from `site[0]`, defined page by page as `get_data` recurses. */
  function WalkRows(site: seq<IndexPage>): seq<Row>
  {
    if site == [] then []
    else RowsOf(site[0].anchors) + (if HasNext(site[0]) then WalkRows(site[1..]) else [])
  }

  /** A walk harvests exactly the rows of the pages it visits. */
  lemma {:induction false} WalkRowsHarvest(site: seq<IndexPage>)
    ensures WalkRows(site) == Harvest(Visited(site))
  {
    if site != [] {
      if HasNext(site[0]) {
        WalkRowsHarvest(site[1..]);
        HeadTailOfAppend([site[0]], Visited(site[1..]));
      } else {
        AppendEmpty(RowsOf(site[0].anchors));
        assert [site[0]][1..] == [];
      }
    }
  }

  /** The number of named anchors over all of `pages`. */
  function TotalNamed(pages: seq<IndexPage>): nat
  {
    if pages == [] then 0 else NamedCount(pages[0].anchors) + TotalNamed(pages[1..])
  }

  /** The URLs the browser is sent to, in order: detail pages, then the next index page. */
  function Requests(site: seq<IndexPage>): seq<string>
  {
    if site == [] then []
    else
      DetailUrls(site[0].anchors)
      + (if HasNext(site[0]) then [AbsoluteUrl(site[0].nextHref.value)] + Requests(site[1..]) else [])
  }

  /**
   * The walk stops at the first page without a next link: every visited page
   * but the last has one; the walk finishes exactly when the last has none, and
   * otherwise it has used up the whole site.
   */
  lemma {:induction false} VisitedStopsAtFirstLastPage(site: seq<IndexPage>)
    requires site != []
    ensures forall j :: 0 <= j < |Visited(site)| - 1 ==> HasNext(site[j])
    ensures Finishes(site) <==> !HasNext(site[|Visited(site)| - 1])
    ensures !Finishes(site) ==> Visited(site) == site
  {
    if HasNext(site[0]) && |site| > 1 {
      VisitedStopsAtFirstLastPage(site[1..]);
    }
  }

  /** The row count is the sum of the named anchors over the visited pages. */
  lemma {:induction false} HarvestCount(pages: seq<IndexPage>)
    ensures |Harvest(pages)| == TotalNamed(pages)
  {
    if pages != [] {
      RowsOfCount(pages[0].anchors);
      HarvestCount(pages[1..]);
    }
  }

  /** Rows keep page order. */
  lemma {:induction false} HarvestAppend(a: seq<IndexPage>, b: seq<IndexPage>)
    ensures Harvest(a + b) == Harvest(a) + Harvest(b)
  {
    if a == [] {
      AppendEmpty(b);
    } else {
      HarvestAppend(a[1..], b);
      HeadTailOfAppend(a, b);
      Assoc(RowsOf(a[0].anchors), Harvest(a[1..]), Harvest(b));
    }
  }

  /**
   * A scripted site of N pages, each linking to the next and the last linking
   * nowhere: the walk makes exactly N passes and yields their named anchors.
   */
  lemma {:induction false} ScriptedTraversal(site: seq<IndexPage>)
    requires site != []
    requires forall j :: 0 <= j < |site| - 1 ==> HasNext(site[j])
    requires !HasNext(site[|site| - 1])
    ensures Visited(site) == site && Finishes(site)
    ensures |Harvest(Visited(site))| == TotalNamed(site)
  {
    if |site| > 1 {
      ScriptedTraversal(site[1..]);
    }
    HarvestCount(site);
  }

  /** The row count of a walk is the number of named anchors on the visited pages. */
  lemma WalkRowCount(site: seq<IndexPage>)
    ensures |WalkRows(site)| == TotalNamed(Visited(site))
  {
    WalkRowsHarvest(site);
    HarvestCount(Visited(site));
  }

  /** Every URL the browser is sent to is the site's base URL followed by an href. */
  lemma {:induction false} RequestsUseBaseUrl(site: seq<IndexPage>)
    ensures forall u :: u in Requests(site) ==> |u| >= |BaseUrl| && u[..|BaseUrl|] == BaseUrl
  {
    if site != [] {
      DetailUrlsUseBaseUrl(site[0].anchors);
      if HasNext(site[0]) {
        RequestsUseBaseUrl(site[1..]);
      }
    }
  }

  lemma {:induction false} DetailUrlsUseBaseUrl(anchors: seq<Anchor>)
    ensures forall u :: u in DetailUrls(anchors) ==> |u| >= |BaseUrl| && u[..|BaseUrl|] == BaseUrl
  {
    if anchors != [] {
      DetailUrlsUseBaseUrl(anchors[..|anchors| - 1]);
    }
  }

  /**
   * One page load per named anchor on the visited pages, plus one per next
   * link followed: all of them but the last page's when the walk finishes.
   */
  lemma {:induction false} RequestCount(site: seq<IndexPage>)
    requires site != []
    ensures |Requests(site)| == TotalNamed(Visited(site)) + |Visited(site)| - (if Finishes(site) then 1 else 0)
  {
    RowsOfCount(site[0].anchors);
    if HasNext(site[0]) && |site| > 1 {
      RequestCount(site[1..]);
    }
  }
}
