/**
 * One index page of the listing site, as plain data, and what `get_data`
 * extracts from it: one row per listing anchor whose `aria-label` is truthy.
 */
module Listing {
  import opened Wrappers
  import opened PyDict
  import opened Seqs

  /** What the browser renders at a listing's detail URL, as the XPath queries see it. */
  datatype DetailPage = DetailPage(
    price: Option<string>,            // `vdp-price-row` span text, `.get()`
    vin: Option<string>,              // second text node under the `mr-1` span, `.get()`
    summary: seq<string>,             // text of the `col` divs, `.getall()`
    specLabels: seq<string>,          // spec category labels, `.getall()`
    specBlocks: seq<seq<string>>)     // text of each `pl-1 mb-0` list, in document order

  /** A `usurp-inventory-card-vdp-link` anchor of an index page. */
  datatype Anchor = Anchor(ariaLabel: Option<string>, href: Option<string>, detail: DetailPage)

  /** An index page: its listing anchors and the href of its `next` control. */
  datatype IndexPage = IndexPage(anchors: seq<Anchor>, nextHref: Option<string>)

  type SpecDict = Dict<string, seq<string>>

  /** One row of the harvested table: the five columns of `self.data`. */
  datatype Row = Row(
    name: string,
    price: Option<string>,
    vin: Option<string>,
    vehicleSummary: seq<string>,
    topFeatureSpecs: SpecDict)

  const BaseUrl: string := "https://www.edmunds.com"

  /** Python truthiness of a query result that may be None: None and "" are false. */
  predicate Truthy(s: Option<string>)
  {
    s.Some? && s.value != ""
  }

  /** `f"{self.base_url}{href}"`. */
  function AbsoluteUrl(href: string): (url: string)
    ensures |url| == |BaseUrl| + |href|
    ensures url[..|BaseUrl|] == BaseUrl && url[|BaseUrl|..] == href
  {
    BaseUrl + href
  }

  /** An f-string renders a missing href (None) as the text "None". */
  function HrefText(href: Option<string>): (s: string)
    ensures href.Some? ==> s == href.value
    ensures href.None? ==> s == "None"
  {
    match href
    case Some(h) => h
    case None => "None"
  }

  /**
   * The text of the (i+1)-th value block, `(//ul[...])[i + 1]//text()`:
   * past the last block the positional predicate selects nothing.
   */
  function BlockAt(blocks: seq<seq<string>>, i: nat): (values: seq<string>)
    ensures i < |blocks| ==> values == blocks[i]
    ensures i >= |blocks| ==> values == []
  {
    if i < |blocks| then blocks[i] else []
  }

  /** `spec_dict` after the first `n` rounds of the `enumerate` loop. */
  function SpecDictPrefix<L(==)>(labels: seq<L>, blocks: seq<seq<string>>, n: nat): Dict<L, seq<string>>
    requires n <= |labels|
  {
    if n == 0 then []
    else Put(SpecDictPrefix(labels, blocks, n - 1), labels[n - 1], BlockAt(blocks, n - 1))
  }

  /** The spec dict of a detail page: empty when there are no labels. */
  function SpecDictOf(labels: seq<string>, blocks: seq<seq<string>>): SpecDict
  {
    if |labels| > 0 then SpecDictPrefix(labels, blocks, |labels|) else []
  }

  /** The spec-dict loop of `get_data`. */
  method BuildSpecDict(specCategory: seq<string>, blocks: seq<seq<string>>) returns (specDict: SpecDict)
    ensures specDict == SpecDictOf(specCategory, blocks)
  {
    specDict := [];
    if |specCategory| > 0 {
      for i := 0 to |specCategory|
        invariant specDict == SpecDictPrefix(specCategory, blocks, i)
      {
        specDict := Put(specDict, specCategory[i], BlockAt(blocks, i));
      }
    }
  }

  /** The distinct elements of `s`, each at its first occurrence. */
  function FirstOccurrences<T(==,!new)>(s: seq<T>): (r: seq<T>)
    ensures Distinct(r)
    ensures forall x :: x in r <==> x in s
  {
    if s == [] then []
    else
      var init, last := s[..|s| - 1], s[|s| - 1];
      var p := FirstOccurrences(init);
      ConsDecompose(s);
      if last in p then p else p + [last]
  }

  /** The keys of the spec dict are the labels, in order of first appearance. */
  lemma {:induction false} SpecDictPrefixKeys<L(!new)>(labels: seq<L>, blocks: seq<seq<string>>, n: nat)
    requires n <= |labels|
    ensures Keys(SpecDictPrefix(labels, blocks, n)) == FirstOccurrences(labels[..n])
  {
    if n > 0 {
      SpecDictPrefixKeys(labels, blocks, n - 1);
      PrefixOfPrefix(labels, n - 1, n);
      var d := SpecDictPrefix(labels, blocks, n - 1);
      var k, v := labels[n - 1], BlockAt(blocks, n - 1);
      PutKeys(d, k, v);
      if k !in Keys(d) {
        KeysOfSnoc(d, Entry(k, v));
      }
    }
  }

  /**
   * The value of a label is the block at the label's last position (or [] when
   * there is no such block).
   */
  lemma {:induction false} SpecDictPrefixValue<L>(labels: seq<L>, blocks: seq<seq<string>>, n: nat, i: nat)
    requires i < n <= |labels|
    requires forall j :: i < j < n ==> labels[j] != labels[i]
    ensures Get(SpecDictPrefix(labels, blocks, n), labels[i]) == Some(BlockAt(blocks, i))
  {
    var d := SpecDictPrefix(labels, blocks, n - 1);
    var k, v := labels[n - 1], BlockAt(blocks, n - 1);
    if i == n - 1 {
      PutGet(d, k, v);
    } else {
      SpecDictPrefixValue(labels, blocks, n - 1, i);
      PutGetOther(d, k, v, labels[i]);
    }
  }

  /** The spec dict, read as a Python dict: keys, their order and their values. */
  lemma SpecDictSemantics(labels: seq<string>, blocks: seq<seq<string>>)
    ensures labels == [] ==> SpecDictOf(labels, blocks) == []
    ensures Keys(SpecDictOf(labels, blocks)) == FirstOccurrences(labels)
    ensures forall k :: k in Keys(SpecDictOf(labels, blocks)) <==> k in labels
    ensures forall k :: k !in labels ==> Get(SpecDictOf(labels, blocks), k) == None
    ensures forall i :: 0 <= i < |labels| && (forall j :: i < j < |labels| ==> labels[j] != labels[i]) ==>
              Get(SpecDictOf(labels, blocks), labels[i]) == Some(BlockAt(blocks, i))
  {
    var d := SpecDictOf(labels, blocks);
    if |labels| > 0 {
      SpecDictPrefixKeys(labels, blocks, |labels|);
      TakeAll(labels);
      forall i | 0 <= i < |labels| && (forall j :: i < j < |labels| ==> labels[j] != labels[i])
        ensures Get(d, labels[i]) == Some(BlockAt(blocks, i))
      {
        SpecDictPrefixValue(labels, blocks, |labels|, i);
      }
    }
    forall k | k !in labels
      ensures Get(d, k) == None
    {
      GetNone(d, k);
    }
  }

  /** Value blocks beyond the number of labels are never read. */
  lemma {:induction false} SpecDictPrefixIgnoresSurplus<L>(labels: seq<L>, blocks: seq<seq<string>>, extra: seq<seq<string>>, n: nat)
    requires n <= |labels| <= |blocks|
    ensures SpecDictPrefix(labels, blocks + extra, n) == SpecDictPrefix(labels, blocks, n)
  {
    if n > 0 {
      SpecDictPrefixIgnoresSurplus(labels, blocks, extra, n - 1);
      var v, v' := BlockAt(blocks + extra, n - 1), BlockAt(blocks, n - 1);
      assert v == v' by {
        assert (blocks + extra)[n - 1] == blocks[n - 1];
      }
    }
  }

  lemma SpecDictIgnoresSurplusBlocks(labels: seq<string>, blocks: seq<seq<string>>, extra: seq<seq<string>>)
    requires |labels| <= |blocks|
    ensures SpecDictOf(labels, blocks + extra) == SpecDictOf(labels, blocks)
  {
    if |labels| > 0 {
      SpecDictPrefixIgnoresSurplus(labels, blocks, extra, |labels|);
    }
  }

  lemma SpecDictExample()
    ensures SpecDictOf(["Engine", "Drivetrain"], [["V6"], ["AWD", "Manual"]])
         == [Entry("Engine", ["V6"]), Entry("Drivetrain", ["AWD", "Manual"])]
  {
    var labels: seq<string> := ["Engine", "Drivetrain"];
    var blocks: seq<seq<string>> := [["V6"], ["AWD", "Manual"]];
    var d1 := SpecDictPrefix(labels, blocks, 1);
    assert d1 == [Entry("Engine", ["V6"])];
    assert Keys(d1) == ["Engine"];
    PutKeys(d1, labels[1], blocks[1]);
  }

  /** An anchor `get_data` keeps: its `aria-label` is truthy. */
  predicate Named(a: Anchor)
  {
    Truthy(a.ariaLabel)
  }

  /** The row appended for a named anchor. */
  function RowOf(a: Anchor): (row: Row)
    requires Named(a)
    ensures row.name == a.ariaLabel.value && row.name != ""
    ensures row.price == a.detail.price && row.vin == a.detail.vin
    ensures row.vehicleSummary == a.detail.summary
    ensures row.topFeatureSpecs == SpecDictOf(a.detail.specLabels, a.detail.specBlocks)
  {
    Row(a.ariaLabel.value, a.detail.price, a.detail.vin, a.detail.summary,
        SpecDictOf(a.detail.specLabels, a.detail.specBlocks))
  }

  /** The URL the browser is sent to for a named anchor. */
  function DetailUrl(a: Anchor): (url: string)
    ensures |url| >= |BaseUrl| && url[..|BaseUrl|] == BaseUrl
    ensures a.href.Some? ==> url[|BaseUrl|..] == a.href.value
    ensures a.href.None? ==> url[|BaseUrl|..] == "None"
  {
    AbsoluteUrl(HrefText(a.href))
  }

  /** The rows the anchor loop appends, in anchor order. */
  function RowsOf(anchors: seq<Anchor>): seq<Row>
  {
    if anchors == [] then []
    else
      var last := anchors[|anchors| - 1];
      RowsOf(anchors[..|anchors| - 1]) + (if Named(last) then [RowOf(last)] else [])
  }

  /** The detail URLs the anchor loop loads, in anchor order. */
  function DetailUrls(anchors: seq<Anchor>): seq<string>
  {
    if anchors == [] then []
    else
      var last := anchors[|anchors| - 1];
      DetailUrls(anchors[..|anchors| - 1]) + (if Named(last) then [DetailUrl(last)] else [])
  }

  /** The number of anchors with a truthy name, counted from the front. */
  function NamedCount(anchors: seq<Anchor>): nat
  {
    if anchors == [] then 0
    else (if Named(anchors[0]) then 1 else 0) + NamedCount(anchors[1..])
  }

  lemma {:induction false} RowsOfAppend(a: seq<Anchor>, b: seq<Anchor>)
    ensures RowsOf(a + b) == RowsOf(a) + RowsOf(b)
    ensures DetailUrls(a + b) == DetailUrls(a) + DetailUrls(b)
  {
    if b == [] {
      AppendEmpty(a);
      AppendEmpty(RowsOf(a));
      AppendEmpty(DetailUrls(a));
    } else {
      var init, last := b[..|b| - 1], b[|b| - 1];
      RowsOfAppend(a, init);
      InitLastOfAppend(a, b);
      Assoc(RowsOf(a), RowsOf(init), if Named(last) then [RowOf(last)] else []);
      Assoc(DetailUrls(a), DetailUrls(init), if Named(last) then [DetailUrl(last)] else []);
    }
  }

  /** One row and one detail-page load per named anchor, none for the others. */
  lemma {:induction false} RowsOfCount(anchors: seq<Anchor>)
    ensures |RowsOf(anchors)| == NamedCount(anchors)
    ensures |DetailUrls(anchors)| == NamedCount(anchors)
  {
    if anchors != [] {
      RowsOfCount(anchors[1..]);
      RowsOfAppend([anchors[0]], anchors[1..]);
      ConsDecompose(anchors);
      assert [anchors[0]][..0] == [];
    }
  }

  /** Every row comes from a named anchor, and every named anchor gives a row. */
  lemma {:induction false} RowsOfExhaustive(anchors: seq<Anchor>)
    ensures forall r :: r in RowsOf(anchors) ==> exists a :: a in anchors && Named(a) && r == RowOf(a)
    ensures forall a :: a in anchors && Named(a) ==> RowOf(a) in RowsOf(anchors)
  {
    if anchors != [] {
      var init := anchors[..|anchors| - 1];
      RowsOfExhaustive(init);
      ConsDecompose(anchors);
    }
  }
}
