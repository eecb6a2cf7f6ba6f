/**
 * The index route (app/routes/_index.tsx): its loader builds an `Effect.all`
 * that scrapes nine libraries (the route wraps it in `Effect.cachedWithTTL`
 * and returns the cached effect without running it); its page is a table with one column per library and
 * one row per distinct component name, where a cell links to the library's
 * component of that name.
 *
 * The route carries its own copies of `scrapeComponentLinks` and
 * `scrapeGithubDirectoryFileLinks`; they do what the helpers of
 * app/scapingHelpers.ts do, so the model runs them as ComponentLinks and
 * GithubDirectoryFileLinks through Scrape.
 */
module IndexRoute {
  import opened Text
  import opened ScrapingHelpers
  import opened Scrapers
  import Seqs

  // ---------------------------------------------------------------------------
  // The loader
  // ---------------------------------------------------------------------------

  /** The nodes a page's selector matched; `None` when the request or reading its body failed. */
  type Fetched = Option<seq<Node>>

  // The loader tags each result with a name only: no site.
  const LoaderShadCn := Scraper("Shadcn", None, "https://ui.shadcn.com", LinkList, AsExtracted)
  const LoaderArkUi := Scraper("ArkUI", None, "https://ark-ui.com", LinkList, AsExtracted)
  const LoaderZagJs := Scraper("ZagJS", None, "https://zagjs.com", LinkList, AsExtracted)
  const LoaderNextUi := Scraper("Next UI", None, "https://nextui.org", LinkList, AsExtracted)
  const LoaderBaseUi := Scraper("Base UI", None, "https://mui.com", LinkList, AsExtracted)
  // Unlike the Arek UI scraper of app/scrapers.ts, the names are not camel-split here.
  const LoaderArekUi := Scraper("Arek UI", None, "https://arek-ui.fly.dev/?q=", GithubFiles, AsExtracted)
  const LoaderMaterialUi := Scraper("Material UI", None, "https://mui.com", LinkList, MaterialUiFilter)
  // Unlike the React Aria scraper of app/scrapers.ts, the names are not camel-split here.
  const LoaderReactAria := Scraper("React Aria", None, "https://react-spectrum.adobe.com/", LinkList, AsExtracted)
  const LoaderParkUi := Scraper("Park UI", None, "https://park-ui.com", LinkList, AsExtracted)

  /** The loader's sources, in the order of its `Effect.all`. */
  const LoaderSources: seq<Scraper> := [
    LoaderShadCn, LoaderArkUi, LoaderZagJs, LoaderNextUi, LoaderBaseUi,
    LoaderArekUi, LoaderMaterialUi, LoaderReactAria, LoaderParkUi
  ]

  /** Position of the Arek UI source, the only one whose extraction can throw. */
  const ArekUiIndex := 5

  /** None of the loader's sources uses the Seek-Oss extractor. */
  const NoSeekOss: SeekOssExtractor := (nodes: seq<Node>, base: string) => []

  /** One source of the loader: its request, then its scraper. */
  function Load(s: Scraper, page: Fetched, loadedAt: Timestamp): Option<Collection> {
    match page
    case None => None
    case Some(nodes) => Scrape(s, nodes, loadedAt, NoSeekOss)
  }

  /**
   * The loader's `Effect.all` over the nine sources, as it runs once given
   * each source's page and the moment it was extracted. It fails exactly when
   * a request fails or when one of Arek UI's file names makes `snakeToPascal`
   * throw; otherwise it yields nine collections, in order, tagged with the
   * sources' names.
   */
  function Loader(pages: seq<Fetched>, times: seq<Timestamp>): (r: Option<seq<Collection>>)
    requires |pages| == |LoaderSources| && |times| == |LoaderSources|
    ensures r.Some? <==>
      && (forall i :: 0 <= i < |pages| ==> pages[i].Some?)
      && (forall k :: 0 <= k < |pages[ArekUiIndex].value| ==> FileName(pages[ArekUiIndex].value[k].firstChildText).Some?)
    ensures r.Some? ==> |r.value| == |LoaderSources|
    ensures r.Some? ==> forall i :: 0 <= i < |LoaderSources| ==>
      && r.value[i].name == LoaderSources[i].name
      && r.value[i].site == None
      && r.value[i].loadedAt == times[i]
  {
    var outcomes := seq(|LoaderSources|, i requires 0 <= i < |LoaderSources| => Load(LoaderSources[i], pages[i], times[i]));
    forall i | 0 <= i < |LoaderSources|
      ensures i != ArekUiIndex ==> (outcomes[i].Some? <==> pages[i].Some?)
      ensures outcomes[i].Some? ==> (outcomes[i].value.name == LoaderSources[i].name
        && outcomes[i].value.site == None && outcomes[i].value.loadedAt == times[i])
    {
      LoadOutcome(LoaderSources[i], pages[i], times[i]);
    }
    LoadOutcome(LoaderArekUi, pages[ArekUiIndex], times[ArekUiIndex]);
    Seqs.Collect(outcomes)
  }

  /** Only a failed request or a GitHub file name that throws makes a source of the loader fail. */
  lemma LoadOutcome(s: Scraper, page: Fetched, loadedAt: Timestamp)
    requires s in LoaderSources
    ensures s.extractor != GithubFiles ==> (Load(s, page, loadedAt).Some? <==> page.Some?)
    ensures s.extractor == GithubFiles ==> (Load(s, page, loadedAt).Some? <==> (page.Some? &&
      forall k :: 0 <= k < |page.value| ==> FileName(page.value[k].firstChildText).Some?))
    ensures Load(s, page, loadedAt).Some? ==> (Load(s, page, loadedAt).value.name == s.name
      && Load(s, page, loadedAt).value.site == s.site == None && Load(s, page, loadedAt).value.loadedAt == loadedAt)
  {
  }

  /** The loader's sources are the first nine scrapers of `allScrapers`, without sites and with two names left unsplit. */
  lemma LoaderSourcesOfAllScrapers()
    ensures |LoaderSources| == 9 <= |AllScrapers|
    ensures forall i :: 0 <= i < |LoaderSources| ==>
      && LoaderSources[i].name == AllScrapers[i].name
      && LoaderSources[i].base == AllScrapers[i].base
      && LoaderSources[i].extractor == AllScrapers[i].extractor
    ensures forall i :: 0 <= i < |LoaderSources| && i != 5 && i != 7 ==> LoaderSources[i].post == AllScrapers[i].post
    ensures LoaderSources[5].post == AsExtracted && AllScrapers[5].post == SplitNames
    ensures LoaderSources[7].post == AsExtracted && AllScrapers[7].post == SplitNames
  {
  }

  /**
   * On the same page, each collection of the loader has the components the
   * matching scraper of app/scrapers.ts finds, except that Arek UI's and React
   * Aria's names are not camel-split.
   */
  lemma {:induction false} LoaderAgreesWithScrapers(pages: seq<Fetched>, times: seq<Timestamp>, seekOss: SeekOssExtractor)
    requires |pages| == |LoaderSources| && |times| == |LoaderSources|
    requires Loader(pages, times).Some?
    ensures forall i :: 0 <= i < |LoaderSources| ==> Scrape(AllScrapers[i], pages[i].value, times[i], seekOss).Some?
    ensures forall i :: 0 <= i < |LoaderSources| ==>
      var mine := Loader(pages, times).value[i].components;
      var theirs := Scrape(AllScrapers[i], pages[i].value, times[i], seekOss).value.components;
      if i == 5 || i == 7 then SplitComponentNames(mine) == theirs else mine == theirs
  {
    LoaderSourcesOfAllScrapers();
    var r := Loader(pages, times).value;
    forall i | 0 <= i < |LoaderSources|
      ensures Scrape(AllScrapers[i], pages[i].value, times[i], seekOss).Some?
      ensures var mine := r[i].components;
        var theirs := Scrape(AllScrapers[i], pages[i].value, times[i], seekOss).value.components;
        if i == 5 || i == 7 then SplitComponentNames(mine) == theirs else mine == theirs
    {
      var outcomes := seq(|LoaderSources|, j requires 0 <= j < |LoaderSources| => Load(LoaderSources[j], pages[j], times[j]));
      assert Seqs.Collect(outcomes) == Loader(pages, times);
      assert outcomes[i] == Scrape(LoaderSources[i], pages[i].value, times[i], NoSeekOss);
      assert r[i] == outcomes[i].value;
    }
  }

  /** The Arek UI column: each file's Pascal name, unsplit, linking to the site's search for that name. */
  lemma LoaderArekUiLinks(pages: seq<Fetched>, times: seq<Timestamp>)
    requires |pages| == |LoaderSources| && |times| == |LoaderSources|
    requires Loader(pages, times).Some?
    ensures var nodes := pages[ArekUiIndex].value;
      var cs := Loader(pages, times).value[ArekUiIndex].components;
      && |cs| == |nodes|
      && forall k :: 0 <= k < |nodes| ==>
        var p := FileName(nodes[k].firstChildText).value;
        cs[k] == Component(p, "https://arek-ui.fly.dev/?q=" + p)
  {
    var outcomes := seq(|LoaderSources|, j requires 0 <= j < |LoaderSources| => Load(LoaderSources[j], pages[j], times[j]));
    assert Seqs.Collect(outcomes) == Loader(pages, times);
    assert outcomes[ArekUiIndex] == Scrape(LoaderArekUi, pages[ArekUiIndex].value, times[ArekUiIndex], NoSeekOss);
  }

  /** The loader's nine names are pairwise distinct, so they can key the table's columns. */
  lemma LoaderNamesDistinct()
    ensures Seqs.Distinct(ScraperNames(LoaderSources))
  {
    LoaderSourcesOfAllScrapers();
    AllScraperKeysOfNames();
    AllScraperKeysDistinct();
    var names := ScraperNames(LoaderSources);
    forall i, j | 0 <= i < j < |names| ensures names[i] != names[j] {
      assert NameKey(names[i]) == AllScraperKeys[i];
      assert NameKey(names[j]) == AllScraperKeys[j];
    }
  }

  // ---------------------------------------------------------------------------
  // The table
  // ---------------------------------------------------------------------------

  /** `components.map((component) => component.name)` */
  function NamesOf(cs: seq<Component>): (r: seq<string>)
    ensures |r| == |cs|
    ensures forall k :: 0 <= k < |cs| ==> r[k] == cs[k].name
  {
    Seqs.Map((c: Component) => c.name, cs)
  }

  /** The collection has a component named `name`. */
  predicate Offers(c: Collection, name: string) {
    exists k :: 0 <= k < |c.components| && c.components[k].name == name
  }

  /** `collections.flatMap(({ components }) => components.map((component) => component.name))` */
  function ComponentNames(cols: seq<Collection>): (r: seq<string>)
    ensures forall n :: n in r <==> exists i :: 0 <= i < |cols| && Offers(cols[i], n)
  {
    if cols == [] then []
    else
      var head, tail := NamesOf(cols[0].components), ComponentNames(cols[1..]);
      assert forall n :: n in head <==> Offers(cols[0], n);
      assert forall i :: 1 <= i < |cols| ==> cols[i] == cols[1..][i - 1];
      head + tail
  }

  /**
   * `allPossibilities`: every component name any collection offers, once
   * each, in the order of its first appearance across the collections.
   */
  function AllPossibilities(cols: seq<Collection>): (r: seq<string>)
    ensures forall n :: n in r ==> n in ComponentNames(cols)
    ensures Seqs.Distinct(r)
    ensures forall n :: n in r <==> exists i :: 0 <= i < |cols| && Offers(cols[i], n)
    ensures forall a, b :: 0 <= a < b < |r| ==>
      Seqs.FirstIndex(ComponentNames(cols), r[a]) < Seqs.FirstIndex(ComponentNames(cols), r[b])
  {
    Seqs.Dedup(ComponentNames(cols))
  }

  /** `components.find((cmp) => cmp.name === name)`: the first component with exactly that name. */
  function FindByName(cs: seq<Component>, name: string): (r: Option<Component>)
    ensures r.Some? <==> exists k :: 0 <= k < |cs| && cs[k].name == name
    ensures r.Some? ==> exists k :: (0 <= k < |cs| && cs[k] == r.value && r.value.name == name
      && forall j :: 0 <= j < k ==> cs[j].name != name)
  {
    if cs == [] then None
    else if cs[0].name == name then Some(cs[0])
    else
      var r := FindByName(cs[1..], name);
      assert forall k :: 1 <= k < |cs| ==> cs[k] == cs[1..][k - 1];
      assert (exists k :: 0 <= k < |cs| && cs[k].name == name) ==> exists k :: 0 <= k < |cs[1..]| && cs[1..][k].name == name;
      assert r.Some? ==> exists k :: (0 <= k < |cs| && cs[k] == r.value && r.value.name == name
        && forall j :: 0 <= j < k ==> cs[j].name != name)
      by {
        if r.Some? {
          var k :| 0 <= k < |cs[1..]| && cs[1..][k] == r.value && r.value.name == name
            && forall j :: 0 <= j < k ==> cs[1..][j].name != name;
          assert cs[k + 1] == r.value;
          assert forall j :: 1 <= j < k + 1 ==> cs[j] == cs[1..][j - 1];
        }
      }
      r
  }

  /** A cell of the table: empty, or a check mark linking to the matching component. */
  datatype Cell = Blank | Check(href: string)

  /** A column heading: the library's name, its number of components, and when it was loaded. */
  datatype Heading = Heading(name: string, count: nat, loadedAt: Timestamp)

  datatype Row = Row(component: string, cells: seq<Cell>)

  datatype Table = Table(headings: seq<Heading>, rows: seq<Row>)

  function CellFor(c: Collection, name: string): Cell {
    match FindByName(c.components, name)
    case None => Blank
    case Some(m) => Check(m.url)
  }

  function RowFor(cols: seq<Collection>, name: string): Row {
    Row(name, Seqs.Map((c: Collection) => CellFor(c, name), cols))
  }

  function HeadingOf(c: Collection): Heading {
    Heading(c.name, |c.components|, c.loadedAt)
  }

  /** The page's table, from the loaded collections. */
  function Render(cols: seq<Collection>): Table {
    Table(Seqs.Map(HeadingOf, cols), Seqs.Map((n: string) => RowFor(cols, n), AllPossibilities(cols)))
  }

  /** One heading per collection, with its name, size and load time; one row per distinct name, in order. */
  lemma RenderShape(cols: seq<Collection>)
    ensures var t := Render(cols);
      && |t.headings| == |cols|
      && (forall i :: 0 <= i < |cols| ==> t.headings[i] == Heading(cols[i].name, |cols[i].components|, cols[i].loadedAt))
      && |t.rows| == |AllPossibilities(cols)|
      && forall r :: 0 <= r < |t.rows| ==> t.rows[r].component == AllPossibilities(cols)[r] && |t.rows[r].cells| == |cols|
  {
  }

  /**
   * The cell of row `r` and column `i` holds a link exactly when the column's
   * collection has a component with the row's name, and it links to the url
   * of the first such component.
   */
  lemma RenderCell(cols: seq<Collection>, r: nat, i: nat)
    requires r < |AllPossibilities(cols)| && i < |cols|
    ensures var name := AllPossibilities(cols)[r];
      var cell := Render(cols).rows[r].cells[i];
      && (cell.Check? <==> Offers(cols[i], name))
      && (cell.Check? ==> exists k :: (0 <= k < |cols[i].components|
            && cols[i].components[k].name == name
            && cell.href == cols[i].components[k].url
            && forall j :: 0 <= j < k ==> cols[i].components[j].name != name))
  {
    var name := AllPossibilities(cols)[r];
    assert Render(cols).rows[r] == RowFor(cols, name);
    assert Render(cols).rows[r].cells[i] == CellFor(cols[i], name);
  }

  /** No row of the table is empty: it has a link in the column of some collection that offers its name. */
  lemma RenderRowChecked(cols: seq<Collection>, r: nat)
    requires r < |Render(cols).rows|
    ensures exists i :: 0 <= i < |cols| && Render(cols).rows[r].cells[i].Check?
  {
    var names := AllPossibilities(cols);
    assert names[r] in names;
    var i :| 0 <= i < |cols| && Offers(cols[i], names[r]);
    RenderCell(cols, r, i);
  }

  /** The rows are keyed by their names: no name labels two rows, and every offered name labels one. */
  lemma RenderRowKeys(cols: seq<Collection>)
    ensures var t := Render(cols);
      && (forall a, b :: 0 <= a < b < |t.rows| ==> t.rows[a].component != t.rows[b].component)
      && forall i, k :: 0 <= i < |cols| && 0 <= k < |cols[i].components| ==>
        exists r :: 0 <= r < |t.rows| && t.rows[r].component == cols[i].components[k].name
  {
    var t := Render(cols);
    var names := AllPossibilities(cols);
    RenderShape(cols);
    forall a, b | 0 <= a < b < |t.rows| ensures t.rows[a].component != t.rows[b].component {
      assert names[a] != names[b];
    }
    forall i, k | 0 <= i < |cols| && 0 <= k < |cols[i].components|
      ensures exists r :: 0 <= r < |t.rows| && t.rows[r].component == cols[i].components[k].name
    {
      var n := cols[i].components[k].name;
      assert Offers(cols[i], n);
      assert n in names;
      var r :| 0 <= r < |names| && names[r] == n;
      assert t.rows[r].component == n;
    }
  }
}
