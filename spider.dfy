/**
 * The `cardeals` spider: its column store `self.data`, the log of URLs it
 * sends the browser to, the tables it hands to the spreadsheet export, and
 * `get_data`, which fills the columns page after page.
 */
module Spider {
  import opened Wrappers
  import opened Listing
  import opened Pagination
  import opened Seqs

  class CarSalesSpider {
    // The five lists of `self.data`, one per column:
    // "Name", "Price", "VIN", "Vehicle Summary", "Top Feature Specs".
    var names: seq<string>
    var prices: seq<Option<string>>
    var vins: seq<Option<string>>
    var vehicleSummaries: seq<seq<string>>
    var topFeatureSpecs: seq<SpecDict>
    // Every URL passed to `driver.get`, in order.
    var requests: seq<string>
    // Every table passed to `pd.DataFrame.from_dict(...).to_excel`, in order.
    var exports: seq<seq<Row>>

    /** The columns are parallel: one entry per listing in each. */
    predicate Valid()
      reads this`names, this`prices, this`vins, this`vehicleSummaries, this`topFeatureSpecs
    {
      |prices| == |names| && |vins| == |names| &&
      |vehicleSummaries| == |names| && |topFeatureSpecs| == |names|
    }

    /** The column store read row by row. */
    function Rows(): (rows: seq<Row>)
      reads this`names, this`prices, this`vins, this`vehicleSummaries, this`topFeatureSpecs
      requires Valid()
      ensures |rows| == |names|
    {
      var n, p, v, s, t := names, prices, vins, vehicleSummaries, topFeatureSpecs;
      seq(|n|, i requires 0 <= i < |n| => Row(n[i], p[i], v[i], s[i], t[i]))
    }

    /** `__init__`: empty columns, no page loaded yet, nothing exported. */
    constructor ()
      ensures Valid() && Rows() == []
      ensures requests == [] && exports == []
    {
      names, prices, vins, vehicleSummaries, topFeatureSpecs := [], [], [], [], [];
      requests, exports := [], [];
    }

    /** The body of the anchor loop for an anchor with a truthy name. */
    method ExtractListing(span: Anchor)
      requires Valid() && Named(span)
      modifies this
      ensures Valid()
      ensures Rows() == old(Rows()) + [RowOf(span)]
      ensures requests == old(requests) + [DetailUrl(span)]
      ensures exports == old(exports)
    {
      names := names + [span.ariaLabel.value];
      requests := requests + [AbsoluteUrl(HrefText(span.href))];
      var spanSelector := span.detail;
      prices := prices + [spanSelector.price];
      vins := vins + [spanSelector.vin];
      vehicleSummaries := vehicleSummaries + [spanSelector.summary];
      var specDict := BuildSpecDict(spanSelector.specLabels, spanSelector.specBlocks);
      topFeatureSpecs := topFeatureSpecs + [specDict];
      assert |Rows()| == |old(Rows())| + 1;
    }

    /**
     * `get_next_page_selector`: loads `base_url + url` and returns the page
     * the browser renders, the head of the rest of the site, if any.
     */
    method GetNextPageSelector(url: string, rest: seq<IndexPage>) returns (nextPage: Option<IndexPage>)
      modifies this`requests
      ensures requests == old(requests) + [AbsoluteUrl(url)]
      ensures rest == [] ==> nextPage == None
      ensures rest != [] ==> nextPage == Some(rest[0])
    {
      var absoluteUrl := AbsoluteUrl(url);
      requests := requests + [absoluteUrl];
      nextPage := if rest == [] then None else Some(rest[0]);
    }

    /** The anchor loop of `get_data` over the listing anchors of one index page. */
    method ExtractPage(spans: seq<Anchor>)
      requires Valid()
      modifies this
      ensures Valid()
      ensures Rows() == old(Rows()) + RowsOf(spans)
      ensures requests == old(requests) + DetailUrls(spans)
      ensures exports == old(exports)
    {
      for i := 0 to |spans|
        invariant Valid()
        invariant Rows() == old(Rows()) + RowsOf(spans[..i])
        invariant requests == old(requests) + DetailUrls(spans[..i])
        invariant exports == old(exports)
      {
        assert spans[..i + 1][..i] == spans[..i];
        if Truthy(spans[i].ariaLabel) {
          ExtractListing(spans[i]);
        }
      }
      assert spans[..|spans|] == spans;
    }

    /**
     * `get_data(response)` with `response == site[0]`: one row per named
     * anchor, then on to the next page, or export when there is none.
     * `finished` is false when the site runs out while a next link remains.
     */
    method GetData(site: seq<IndexPage>) returns (finished: bool)
      requires site != [] && Valid()
      modifies this
      decreases |site|
      ensures Valid()
      ensures Rows() == old(Rows()) + WalkRows(site)
      ensures requests == old(requests) + Requests(site)
      ensures finished == Finishes(site)
      ensures exports == old(exports) + (if finished then [Rows()] else [])
    {
      ghost var rows0, requests0 := Rows(), requests;
      var response := site[0];
      var spans := response.anchors;
      ExtractPage(spans);
      ghost var pageRows, pageUrls := RowsOf(spans), DetailUrls(spans);
      var nextPageUrl := response.nextHref;
      if Truthy(nextPageUrl) {
        var nextPageSelector := GetNextPageSelector(nextPageUrl.value, site[1..]);
        ghost var nextUrl := [AbsoluteUrl(nextPageUrl.value)];
        if nextPageSelector.Some? {
          finished := GetData(site[1..]);
        } else {
          finished := false;
          AppendEmpty(nextUrl);
        }
        Assoc(rows0, pageRows, WalkRows(site[1..]));
        Assoc(requests0 + pageUrls, nextUrl, Requests(site[1..]));
        Assoc(requests0, pageUrls, nextUrl + Requests(site[1..]));
      } else {
        AppendEmpty(pageRows);
        AppendEmpty(pageUrls);
        exports := exports + [Rows()];
        finished := true;
      }
    }
  }

  /**
   * The single-listing scenario: one page, one named anchor without a price,
   * no spec section and no next link gives exactly that one row.
   */
  method SingleListingScenario() returns (spider: CarSalesSpider)
    ensures spider.Valid()
    ensures spider.Rows() == [Row("2020 Honda Civic", None, Some("1HGCV1F34LA000000"),
                                  ["Clean title", "One owner"], [])]
    ensures spider.requests == [BaseUrl + "/civic"]
    ensures spider.exports == [spider.Rows()]
  {
    var detail := DetailPage(None, Some("1HGCV1F34LA000000"), ["Clean title", "One owner"], [], []);
    var anchor := Anchor(Some("2020 Honda Civic"), Some("/civic"), detail);
    var page := IndexPage([anchor], None);
    spider := new CarSalesSpider();
    var finished := spider.GetData([page]);
    assert [anchor][..0] == [];
    assert Visited([page]) == [page];
    assert Harvest([page]) == RowsOf([anchor]);
    assert Requests([page]) == DetailUrls([anchor]);
  }
}
