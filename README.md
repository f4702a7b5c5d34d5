# cardeals spider, modelled in Dafny

This project models the logic of the `cardeals` Scrapy spider, which harvests
for-sale-by-owner car listings. It covers:

- the two input validators, `check_code` (postal code) and
  `check_slider_input` (search radius);
- the column store `self.data`, which holds five parallel lists: Name, Price,
  VIN, Vehicle Summary, Top Feature Specs;
- `get_data`, which appends one entry to every column for each listing anchor
  with a truthy `aria-label`. For each such anchor it loads the detail page,
  builds the "Top Feature Specs" dict from the page's labels and value blocks,
  and then follows the page's `next` link recursively;
- `get_next_page_selector`, which loads `base_url + href`.

The browser and the XPath engine are replaced by plain data:

- An `IndexPage` holds its listing anchors and an optional next href.
- An `Anchor` holds an optional `aria-label`, an optional href and the
  `DetailPage` the browser renders for it.
- A `DetailPage` holds an optional price, an optional VIN, the summary lines,
  the spec labels and the spec value blocks.
- The site is a finite sequence of index pages. `site[0]` is the page given to
  `get_data`. `site[k + 1]` is what the browser renders when `site[k]`'s next
  link is followed.

The spider keeps three things in place:

- the five columns, as `seq` fields of a class;
- the list of URLs passed to `driver.get`;
- the list of tables passed to the spreadsheet export.

Modules:

- `Wrappers`: the `Option` type.
- `Seqs`: sequence facts used by the proofs.
- `PyDict`: Python's `dict`, as an association list in insertion order. `d[k] = v`
  overwrites an existing key where it stands and appends a new key at the end.
- `Validators`: the two validators.
- `Listing`: page data, the spec dict, and the rows of one page.
- `Pagination`: the walk along next links.
- `Spider`: the `CarSalesSpider` class.

Three behaviours of the code worth stating:

- The range test at line 68 of `check_slider_input` has no effect: the radius
  validator accepts every integer, not only 1..6. See the finding below.
- A spec label with no value block at its position gets `[]`, because an XPath
  positional predicate past the last node selects nothing.
- A repeated spec label keeps its first key position and takes the value block
  of its last position.

## Model

| member | source | states |
|---|---|---|
| Validators.CheckCode | carsales/spiders/cardeals.py:44-54 | accepts exactly the strings of length 5 whose characters are all digits; any other length is rejected |
| Validators.PostalCodeExamples | carsales/spiders/cardeals.py:44-54 | "90210" is accepted; "9021", "902100", "" and "9021a" are rejected |
| Validators.CheckSliderInput | carsales/spiders/cardeals.py:66-70 | as written: true exactly when the argument is a Python int (bools included); the range test changes nothing |
| Validators.SliderRangeTestHasNoEffect | carsales/spiders/cardeals.py:66-70 | every integer passes, and the result differs from the intended validator exactly outside 1..6 |
| Validators.SliderCounterexamples | carsales/spiders/cardeals.py:66-70 | 0, 7 and -1 are accepted; a string and None are rejected |
| Validators.CheckSliderInputIntended | carsales/spiders/cardeals.py:68-69 | corrected: true exactly for ints strictly between 0 and 7 |
| Validators.SliderIntendedRange | carsales/spiders/cardeals.py:68 | the corrected validator accepts exactly 1..6 among the integers and rejects non-integers |
| Validators.MenuChoiceZeroRejected | carsales/spiders/cardeals.py:90-98 | menu choice 0 is accepted as written but rejected by the corrected range |
| PyDict.Get | carsales/spiders/cardeals.py:187 | `d.get(k)` on an insertion-ordered dict: the value stored under k, None when k is absent; specifies the effect of `d[k] = v` in the lemmas below |
| PyDict.Put | carsales/spiders/cardeals.py:187 | `d[k] = v`: an existing key is overwritten where it stands, a new key is appended at the end (proved in PutKeys, PutGet, PutGetOther, PutDistinct) |
| PyDict.GetNone | carsales/spiders/cardeals.py:187 | a lookup misses exactly when the key is not among the dict's keys |
| PyDict.PutKeys | carsales/spiders/cardeals.py:187 | `d[k] = v` keeps the key order when k is present and appends (k, v) at the end otherwise |
| PyDict.PutGet | carsales/spiders/cardeals.py:187 | after `d[k] = v`, looking up k gives v |
| PyDict.PutGetOther | carsales/spiders/cardeals.py:187 | `d[k] = v` leaves every other key's value unchanged |
| PyDict.PutDistinct | carsales/spiders/cardeals.py:187 | assignment never creates a duplicate key |
| Listing.Truthy | carsales/spiders/cardeals.py:166 | Python truthiness of a query result that may be None: None and "" are false, every other string is true |
| Listing.Named | carsales/spiders/cardeals.py:166 | `if span.xpath(".//@aria-label").get():` keeps exactly the anchors whose aria-label is present and non-empty |
| Listing.AbsoluteUrl | carsales/spiders/cardeals.py:146 | the URL splits into the base URL followed by the href |
| Listing.HrefText | carsales/spiders/cardeals.py:170 | a missing href is rendered by the f-string as the text "None" |
| Listing.DetailUrl | carsales/spiders/cardeals.py:170 | the detail URL starts with the base URL, followed by the anchor's href, or by "None" when it has none |
| Listing.BlockAt | carsales/spiders/cardeals.py:187 | the (i+1)-th value block, or [] when there are no more than i blocks |
| Listing.SpecDictPrefix | carsales/spiders/cardeals.py:186-187 | `spec_dict` after the first n rounds of the enumerate loop: round i assigns block i+1 (BlockAt) to label i |
| Listing.SpecDictOf | carsales/spiders/cardeals.py:181-189 | the spec dict of a detail page: {} when there are no labels, otherwise every round of the loop; its meaning is proved in SpecDictSemantics |
| Listing.BuildSpecDict | carsales/spiders/cardeals.py:181-189 | the enumerate loop builds exactly the spec dict the specification function defines |
| Listing.FirstOccurrences | carsales/spiders/cardeals.py:186-187 | key order of the spec dict: distinct labels, same members as the label list |
| Listing.SpecDictPrefixKeys | carsales/spiders/cardeals.py:186-187 | after n rounds the keys are the first n labels, each at its first occurrence |
| Listing.SpecDictPrefixValue | carsales/spiders/cardeals.py:186-187 | a label's value is the block at its last position so far |
| Listing.SpecDictSemantics | carsales/spiders/cardeals.py:181-189 | no labels gives {}; the key set is the label set, in first-occurrence order; unknown keys miss; each label maps to the block at its last position, or [] past the last block |
| Listing.SpecDictPrefixIgnoresSurplus | carsales/spiders/cardeals.py:186-187 | blocks past the number of labels do not affect any round of the loop |
| Listing.SpecDictIgnoresSurplusBlocks | carsales/spiders/cardeals.py:181-189 | surplus value blocks never change the spec dict |
| Listing.SpecDictExample | carsales/spiders/cardeals.py:181-189 | labels Engine and Drivetrain with blocks [V6] and [AWD, Manual] give that dict, in that order |
| Listing.RowOf | carsales/spiders/cardeals.py:166-189 | the row of a named anchor: its non-empty name, the detail page's price, VIN and summary, and its spec dict |
| Listing.RowsOf | carsales/spiders/cardeals.py:165-189 | the rows the anchor loop appends, in anchor order: RowOf of each named anchor, nothing for the others |
| Listing.DetailUrls | carsales/spiders/cardeals.py:165-170 | the detail URLs the anchor loop passes to `driver.get`, in anchor order, one per named anchor |
| Listing.RowsOfAppend | carsales/spiders/cardeals.py:165-189 | rows and detail loads follow anchor order: the anchors of a + b give those of a, then those of b |
| Listing.RowsOfCount | carsales/spiders/cardeals.py:165-170 | one row and one detail load per anchor with a truthy name |
| Listing.RowsOfExhaustive | carsales/spiders/cardeals.py:165-166 | every row comes from a named anchor, and every named anchor gives a row |
| Pagination.HasNext | carsales/spiders/cardeals.py:191-192 | `if next_page_url:`: the page's next href is present and non-empty |
| Pagination.Finishes | carsales/spiders/cardeals.py:191-197 | the recursion reaches, within the site, a page with no truthy next link, where the else branch exports |
| Pagination.WalkRows | carsales/spiders/cardeals.py:163-194 | the rows `get_data` appends from site[0] on: this page's rows, then, when there is a next link, those of the recursive call |
| Pagination.Requests | carsales/spiders/cardeals.py:163-194 | the URLs passed to `driver.get` by the walk, in order: this page's detail URLs, then base URL + next href and the recursive call's URLs |
| Pagination.Visited | carsales/spiders/cardeals.py:191-194 | the visited pages form a non-empty prefix of the site |
| Pagination.VisitedStopsAtFirstLastPage | carsales/spiders/cardeals.py:191-197 | all visited pages but the last have a next link; the walk finishes exactly when the last has none; otherwise it used up the whole site |
| Pagination.WalkRowsHarvest | carsales/spiders/cardeals.py:165-194 | the rows of the walk are the rows of the visited pages, page after page |
| Pagination.HarvestCount | carsales/spiders/cardeals.py:165-194 | the row count is the total number of named anchors over the pages |
| Pagination.HarvestAppend | carsales/spiders/cardeals.py:191-194 | rows keep page order |
| Pagination.WalkRowCount | carsales/spiders/cardeals.py:165-194 | rows added by a walk = named anchors on the visited pages |
| Pagination.ScriptedTraversal | carsales/spiders/cardeals.py:191-197 | with N pages where only the last has no next link, the walk makes N passes, finishes, and yields the summed named-anchor count |
| Pagination.RequestsUseBaseUrl | carsales/spiders/cardeals.py:146-194 | every URL sent to the browser starts with the base URL |
| Pagination.DetailUrlsUseBaseUrl | carsales/spiders/cardeals.py:170 | every detail URL starts with the base URL |
| Pagination.RequestCount | carsales/spiders/cardeals.py:165-194 | page loads = named anchors visited + next links followed |
| Spider.CarSalesSpider.Valid | carsales/spiders/cardeals.py:24-30 | the five lists of `self.data` are parallel: all have the same length |
| Spider.CarSalesSpider.Rows | carsales/spiders/cardeals.py:24-30 | `self.data` read row by row: row i gathers entry i of each column; there are as many rows as names |
| Spider.CarSalesSpider.constructor | carsales/spiders/cardeals.py:24-30 | the five columns start empty and parallel; nothing is loaded or exported |
| Spider.CarSalesSpider.ExtractListing | carsales/spiders/cardeals.py:166-189 | appends exactly one row (RowOf) across the five columns; logs the one detail URL; columns stay parallel |
| Spider.CarSalesSpider.ExtractPage | carsales/spiders/cardeals.py:163-189 | appends RowsOf(anchors) to the existing rows, which are left unchanged; logs the detail URLs; columns stay parallel at every iteration |
| Spider.CarSalesSpider.GetNextPageSelector | carsales/spiders/cardeals.py:135-151 | logs base URL + href and returns the next rendered page, if the site has one |
| Spider.CarSalesSpider.GetData | carsales/spiders/cardeals.py:153-197 | the old rows stay as they are and the walk's rows follow them; columns stay parallel across recursive calls; the request log grows by the walk's URLs; the final table is exported once exactly when a page without a next link is reached |
| Spider.SingleListingScenario | carsales/spiders/cardeals.py:153-197 | one page with one named listing and no next link: exactly one row, with no price, the VIN, the summary and an empty spec dict; that table is exported |

## Left out

- Selenium driving (`get_selector`, `ActionChains` gestures on the postal-code field and the radius slider, `maximize_window`): browser I/O. The first index page is an input.
- `ChromeDriverManager` installation and the Scrapy `Spider` base class: environment set-up.
- `input_data`'s reprompt loops, `input()`, `int(input())` and `print`: console I/O. Only the validators they call are modelled.
- XPath evaluation: the query results are fields of `IndexPage`, `Anchor` and `DetailPage`. The one rule kept is that a positional predicate past the end selects nothing.
- `pd.DataFrame.from_dict(...).to_excel(...)`: file output. The model records the table handed over, in `exports`. The columns being parallel is what `from_dict` needs.
- Validators.IsDigit: covers only ASCII '0'..'9'. Python's `str.isdigit` also accepts other Unicode digits, such as superscripts, and a character-database table is not part of this model.
- Spider.CarSalesSpider.GetData: ignores Python's recursion depth. `get_data` calls itself once per followed next link (line 194) and CPython does not remove tail calls, so under the default recursion limit of 1000 a chain of about a thousand pages ends in `RecursionError` and line 197 never writes the export. The model promises the export for a finishing chain of any length.
- Spider.CarSalesSpider.GetData: the site is finite. When the last modelled page still has a truthy next link, the walk stops with `finished == false` and does not export. The real spider would keep loading pages until the next link disappears or the recursion limit raises `RecursionError`.
- The page a detail load renders is a field of the anchor. The model does not tie it to the URL, so two anchors with the same href may render different pages, and nothing is said about how a page depends on its URL.
- Page-load and element-lookup failures end the real run with an exception. The model has no failing navigation.
- Selenium's `driver.get(self.start_url)` in `get_selector` is not in the request log, which starts at the first index page.

## Findings

| source | as written | input that shows it | evidently intended | confidence | as-written member | corrected member |
|---|---|---|---|---|---|---|
| carsales/spiders/cardeals.py:66-70 | the range test `0 < slider_input < 7` returns `is_good`, and so does the fall-through, so any int passes | `check_slider_input(0)`, `check_slider_input(7)` and `check_slider_input(-1)` return True | return False for an int outside 1..6. The menu at lines 90-98 offers 0..6, so choice 0 conflicts even with the corrected range. | not executed; the intent is read from the range test itself | Validators.SliderRangeTestHasNoEffect | Validators.SliderIntendedRange |
