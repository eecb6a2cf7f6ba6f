/**
 * The twenty component-library scrapers (app/scrapers.ts).
 *
 * Each scraper of the source is a constant pipeline: an extractor applied to
 * one page, an optional post-processing of the components, and a final map
 * that tags the result with the library's name and site. The model keeps
 * each scraper as a record of those choices (its extractor, the `base` its
 * extractor prefixes, its post-processing, its name and site) and runs it with
 * Scrape. The page's URL and the link selector have no behaviour of their own
 * and are not part of the record.
 */
module Scrapers {
  import opened Text
  import opened ScrapingHelpers
  import Seqs

  /** The moment a page's components were extracted (`new Date()`), supplied by the caller. */
  type Timestamp = int

  /**
   * One scraped library: `{ loadedAt, components, name, site }`. The loader of
   * the index route tags only the name, so `site` is optional.
   */
  datatype Collection = Collection(name: string, site: Option<string>, loadedAt: Timestamp, components: seq<Component>)

  /** Which of the helpers turns the matched nodes into components. */
  datatype Extractor = LinkList | GithubFiles | GithubFolders | SeekOssLinks

  /** The per-library rewriting of the extracted components. */
  datatype PostProcess =
    | AsExtracted
    | SplitNames
    | MaterialUiFilter
    | ReactBootstrapNames
    | AntDesignNames
    | BlueprintJsNames
    | ThemeUiFilter

  datatype Scraper = Scraper(name: string, site: Option<string>, base: string, extractor: Extractor, post: PostProcess)

  /** `scrapeComponentLinksSeekOss` is not part of this model: its mapping is supplied by the caller. */
  type SeekOssExtractor = (seq<Node>, string) -> seq<Component>

  // ---------------------------------------------------------------------------
  // Post-processing of the components
  // ---------------------------------------------------------------------------

  /** `components.map(({ name, ...c }) => ({ ...c, name: splitCamelcase(name) }))` (Arek UI, React Aria). */
  function SplitComponentNames(cs: seq<Component>): (r: seq<Component>)
    ensures |r| == |cs|
    ensures forall i :: 0 <= i < |cs| ==> r[i].url == cs[i].url && r[i].name == SplitCamelcase(cs[i].name)
  {
    Seqs.Map((c: Component) => Component(SplitCamelcase(c.name), c.url), cs)
  }

  /** Material UI keeps a component unless its url matches `/about-the-lab/` or `/react-use-media-query/`. */
  predicate MaterialUiKeeps(c: Component) {
    !Contains(c.url, "about-the-lab") && !Contains(c.url, "react-use-media-query")
  }

  /** Material UI: exactly the components whose url contains neither excluded fragment, unchanged. */
  function MaterialUiComponents(cs: seq<Component>): (r: seq<Component>)
    ensures |r| <= |cs|
    ensures forall c :: c in r <==> c in cs && MaterialUiKeeps(c)
  {
    Seqs.Filter(MaterialUiKeeps, cs)
  }

  /** The Material UI filter keeps the components in their original order. */
  lemma MaterialUiKeepsOrder(a: seq<Component>, b: seq<Component>)
    ensures MaterialUiComponents(a + b) == MaterialUiComponents(a) + MaterialUiComponents(b)
  {
    Seqs.FilterConcat(MaterialUiKeeps, a, b);
  }

  /** A page is passed through unchanged exactly when none of its urls is excluded. */
  lemma MaterialUiUnchangedIff(cs: seq<Component>)
    ensures MaterialUiComponents(cs) == cs <==> forall i :: 0 <= i < |cs| ==> MaterialUiKeeps(cs[i])
  {
    if forall i :: 0 <= i < |cs| ==> MaterialUiKeeps(cs[i]) {
      Seqs.FilterKeepsAll(MaterialUiKeeps, cs);
    } else {
      var i :| 0 <= i < |cs| && !MaterialUiKeeps(cs[i]);
      assert cs[i] in cs;
    }
  }

  /** `name.replace(/s$/, '')`: one `s` at the very end is removed. */
  function DropTrailingS(name: string): (r: string)
    ensures r <= name
    ensures |name| - 1 <= |r|
    ensures |r| < |name| <==> |name| > 0 && name[|name| - 1] == 's'
  {
    if |name| > 0 && name[|name| - 1] == 's' then name[..|name| - 1] else name
  }

  /** React Bootstrap: `capitalizeSubsequentWords(name.replace(/s$/, ''))`, urls and count unchanged. */
  function ReactBootstrapComponents(cs: seq<Component>): (r: seq<Component>)
    ensures |r| == |cs|
    ensures forall i :: 0 <= i < |cs| ==>
      r[i].url == cs[i].url && r[i].name == CapitalizeSubsequentWords(DropTrailingS(cs[i].name))
  {
    Seqs.Map((c: Component) => Component(CapitalizeSubsequentWords(DropTrailingS(c.name)), c.url), cs)
  }

  /**
   * Each React Bootstrap name is its original name with at most one final `s`
   * removed and every `a`-`z` letter after white space upper-cased.
   */
  lemma ReactBootstrapNamesAt(cs: seq<Component>, i: nat)
    requires i < |cs|
    ensures var name, r := cs[i].name, ReactBootstrapComponents(cs)[i].name;
      && |r| == (if |name| > 0 && name[|name| - 1] == 's' then |name| - 1 else |name|)
      && forall k :: 0 <= k < |r| ==> r[k] == if StartsWord(name, k) then ToUpper(name[k]) else name[k]
  {
    var name := cs[i].name;
    var d := DropTrailingS(name);
    CapitalizeSubsequentWordsAt(d);
    forall k | 0 <= k < |d| ensures StartsWord(d, k) == StartsWord(name, k) && d[k] == name[k] {
      assert d[k] == name[k];
      if k > 0 { assert d[k - 1] == name[k - 1]; }
    }
  }

  /** Ant Design drops the components whose name starts with `_`. */
  predicate AntDesignKeeps(c: Component) {
    !("_" <= c.name)
  }

  /** Ant Design: the components not named `_...`, in order, with camel-split names. */
  function AntDesignComponents(cs: seq<Component>): (r: seq<Component>)
    ensures |r| <= |cs|
    ensures forall i :: 0 <= i < |r| ==> !("_" <= r[i].name)
    ensures forall c :: c in r <==>
      exists d :: d in cs && AntDesignKeeps(d) && c == Component(SplitCamelcase(d.name), d.url)
  {
    var kept := Seqs.Filter(AntDesignKeeps, cs);
    var f := (c: Component) => Component(SplitCamelcase(c.name), c.url);
    Seqs.MapMembers(f, kept);
    assert forall i :: 0 <= i < |kept| ==> kept[i] in kept;
    Seqs.Map(f, kept)
  }

  /** The Ant Design rewriting keeps the components in their original order. */
  lemma AntDesignKeepsOrder(a: seq<Component>, b: seq<Component>)
    ensures AntDesignComponents(a + b) == AntDesignComponents(a) + AntDesignComponents(b)
  {
    Seqs.FilterConcat(AntDesignKeeps, a, b);
    var f := (c: Component) => Component(SplitCamelcase(c.name), c.url);
    var ka, kb := Seqs.Filter(AntDesignKeeps, a), Seqs.Filter(AntDesignKeeps, b);
    var m := Seqs.Map(f, ka + kb);
    assert m == Seqs.Map(f, ka) + Seqs.Map(f, kb) by {
      forall i | 0 <= i < |m| ensures m[i] == (Seqs.Map(f, ka) + Seqs.Map(f, kb))[i] {
        if i < |ka| { assert (ka + kb)[i] == ka[i]; } else { assert (ka + kb)[i] == kb[i - |ka|]; }
      }
    }
  }

  /** Blueprint JS: count and order kept, names camel-split, urls lower-cased. */
  function BlueprintJsComponents(cs: seq<Component>): (r: seq<Component>)
    ensures |r| == |cs|
    ensures forall i :: 0 <= i < |cs| ==>
      r[i].name == SplitCamelcase(cs[i].name) && r[i].url == LowerCase(cs[i].url)
  {
    Seqs.Map((c: Component) => Component(SplitCamelcase(c.name), LowerCase(c.url)), cs)
  }

  /** Theme UI drops the components whose url matches `/variants/`. */
  predicate ThemeUiKeeps(c: Component) {
    !Contains(c.url, "variants")
  }

  /** Theme UI: the components whose url has no `variants`, in order, with camel-split names and the same urls. */
  function ThemeUiComponents(cs: seq<Component>): (r: seq<Component>)
    ensures |r| <= |cs|
    ensures forall i :: 0 <= i < |r| ==> !Contains(r[i].url, "variants")
    ensures forall c :: c in r <==>
      exists d :: d in cs && ThemeUiKeeps(d) && c == Component(SplitCamelcase(d.name), d.url)
  {
    var kept := Seqs.Filter(ThemeUiKeeps, cs);
    var f := (c: Component) => Component(SplitCamelcase(c.name), c.url);
    Seqs.MapMembers(f, kept);
    assert forall i :: 0 <= i < |kept| ==> kept[i] in kept;
    Seqs.Map(f, kept)
  }

  /** The Theme UI filter keeps the survivors in their original order, each once per occurrence. */
  lemma ThemeUiKeepsOrder(a: seq<Component>, b: seq<Component>)
    ensures ThemeUiComponents(a + b) == ThemeUiComponents(a) + ThemeUiComponents(b)
  {
    Seqs.FilterConcat(ThemeUiKeeps, a, b);
    var f := (c: Component) => Component(SplitCamelcase(c.name), c.url);
    var ka, kb := Seqs.Filter(ThemeUiKeeps, a), Seqs.Filter(ThemeUiKeeps, b);
    var m := Seqs.Map(f, ka + kb);
    assert m == Seqs.Map(f, ka) + Seqs.Map(f, kb) by {
      forall i | 0 <= i < |m| ensures m[i] == (Seqs.Map(f, ka) + Seqs.Map(f, kb))[i] {
        if i < |ka| { assert (ka + kb)[i] == ka[i]; } else { assert (ka + kb)[i] == kb[i - |ka|]; }
      }
    }
  }

  /** A single component survives Theme UI's filter exactly when its url has no `variants`, and then only its name changes. */
  lemma ThemeUiOfOne(c: Component)
    ensures ThemeUiComponents([c]) == if ThemeUiKeeps(c) then [Component(SplitCamelcase(c.name), c.url)] else []
  {
  }

  // ---------------------------------------------------------------------------
  // Running one scraper
  // ---------------------------------------------------------------------------

  /** The extractor step; `None` when the extractor throws. */
  function Extract(e: Extractor, nodes: seq<Node>, base: string, seekOss: SeekOssExtractor): Option<seq<Component>> {
    match e
    case LinkList => Some(ComponentLinks(nodes, base))
    case GithubFiles => GithubDirectoryFileLinks(nodes, base)
    case GithubFolders => GithubDirectoryFolderLinks(nodes, base)
    case SeekOssLinks => Some(seekOss(nodes, base))
  }

  /** The post-processing step. */
  function Refine(p: PostProcess, cs: seq<Component>): seq<Component> {
    match p
    case AsExtracted => cs
    case SplitNames => SplitComponentNames(cs)
    case MaterialUiFilter => MaterialUiComponents(cs)
    case ReactBootstrapNames => ReactBootstrapComponents(cs)
    case AntDesignNames => AntDesignComponents(cs)
    case BlueprintJsNames => BlueprintJsComponents(cs)
    case ThemeUiFilter => ThemeUiComponents(cs)
  }

  /**
   * One scraper run on the nodes its selector matched: extract, post-process,
   * then tag with the scraper's fixed name and site. Only the extractor can
   * fail; the post-processing and the tagging never do.
   */
  function Scrape(s: Scraper, nodes: seq<Node>, loadedAt: Timestamp, seekOss: SeekOssExtractor): (r: Option<Collection>)
    ensures r.Some? <==> Extract(s.extractor, nodes, s.base, seekOss).Some?
    ensures r.Some? ==> r.value.name == s.name && r.value.site == s.site && r.value.loadedAt == loadedAt
  {
    match Extract(s.extractor, nodes, s.base, seekOss)
    case None => None
    case Some(cs) => Some(Collection(s.name, s.site, loadedAt, Refine(s.post, cs)))
  }

  // ---------------------------------------------------------------------------
  // The scrapers
  // ---------------------------------------------------------------------------

  const ShadCn := Scraper("Shadcn", Some("https://ui.shadcn.com"), "https://ui.shadcn.com", LinkList, AsExtracted)
  const ArkUi := Scraper("ArkUI", Some("https://ark-ui.com"), "https://ark-ui.com", LinkList, AsExtracted)
  const ZagJs := Scraper("ZagJS", Some("https://zagjs.com"), "https://zagjs.com", LinkList, AsExtracted)
  const NextUi := Scraper("Next UI", Some("https://nextui.org"), "https://nextui.org", LinkList, AsExtracted)
  const BaseUi := Scraper("Base UI", Some("https://mui.com/base-ui"), "https://mui.com", LinkList, AsExtracted)
  const ArekUi := Scraper("Arek UI", Some("https://arek-ui.fly.dev/"), "https://arek-ui.fly.dev/?q=", GithubFiles, SplitNames)
  const HeadlessUi := Scraper("Headless UI", Some("https://headlessui.com"), "https://headlessui.com/react/", LinkList, AsExtracted)
  const DaisyUi := Scraper("Daisy UI", Some("https://daisyui.com"), "https://daisyui.com/components/", LinkList, AsExtracted)
  const MaterialUi := Scraper("Material UI", Some("https://mui.com"), "https://mui.com", LinkList, MaterialUiFilter)
  const ReactAria := Scraper("React Aria", Some("https://react-spectrum.adobe.com/react-aria"), "https://react-spectrum.adobe.com/", LinkList, SplitNames)
  const ParkUi := Scraper("Park UI", Some("https://park-ui.com"), "https://park-ui.com", LinkList, AsExtracted)
  // The source spells this library's name "React Boostrap".
  const ReactBootstrap := Scraper("React Boostrap", Some("https://react-bootstrap.github.io"), "https://react-bootstrap.github.io", LinkList, ReactBootstrapNames)
  const AntDesign := Scraper("Ant Design", Some("https://ant.design/"), "https://ant.design/", GithubFolders, AntDesignNames)
  const SemanticUi := Scraper("Semantic UI", Some("https://semantic-ui.com"), "https://semantic-ui.com", LinkList, AsExtracted)
  const BlueprintJs := Scraper("Blueprint JS", Some("https://blueprintjs.com"), "https://blueprintjs.com/docs/#core/components/", GithubFolders, BlueprintJsNames)
  const ThemeUi := Scraper("Theme UI", Some("https://theme-ui.com"), "https://theme-ui.com", LinkList, ThemeUiFilter)
  const ChakraUi := Scraper("Chakra UI", Some("https://chakra-ui.com"), "https://chakra-ui.com", LinkList, AsExtracted)
  const SeekOss := Scraper("Seek-Oss", Some("https://seek-oss.github.io/braid-design-system/"), "https://seek-oss.github.io/braid-design-system/components/", SeekOssLinks, AsExtracted)
  const RadixUi := Scraper("Radix UI", Some("https://www.radix-ui.com"), "https://www.radix-ui.com", LinkList, AsExtracted)
  const Fluent2Ui := Scraper("Fluent 2 UI", Some("https://fluent2.microsoft.design/"), "https://fluent2.microsoft.design", LinkList, AsExtracted)

  /** `allScrapers`, in the source's order. */
  const AllScrapers: seq<Scraper> := [
    ShadCn, ArkUi, ZagJs, NextUi, BaseUi, ArekUi, MaterialUi, ReactAria, ParkUi, ReactBootstrap,
    AntDesign, SemanticUi, BlueprintJs, ThemeUi, ChakraUi, HeadlessUi, DaisyUi, SeekOss, RadixUi, Fluent2Ui
  ]

  function ScraperNames(ss: seq<Scraper>): (names: seq<string>)
    ensures |names| == |ss|
    ensures forall i :: 0 <= i < |ss| ==> names[i] == ss[i].name
  {
    Seqs.Map((s: Scraper) => s.name, ss)
  }

  /** Length and first character of a name, as one number: enough to tell the scrapers' names apart. */
  function NameKey(name: string): int {
    |name| * 0x1_0000 + (if name == [] then 0 else name[0] as int % 0x1_0000)
  }

  /** The keys of the names of `AllScrapers`, in order. */
  const AllScraperKeys: seq<int> := [
    6 * 0x1_0000 + 'S' as int, 5 * 0x1_0000 + 'A' as int, 5 * 0x1_0000 + 'Z' as int, 7 * 0x1_0000 + 'N' as int,
    7 * 0x1_0000 + 'B' as int, 7 * 0x1_0000 + 'A' as int, 11 * 0x1_0000 + 'M' as int, 10 * 0x1_0000 + 'R' as int,
    7 * 0x1_0000 + 'P' as int, 14 * 0x1_0000 + 'R' as int, 10 * 0x1_0000 + 'A' as int, 11 * 0x1_0000 + 'S' as int,
    12 * 0x1_0000 + 'B' as int, 8 * 0x1_0000 + 'T' as int, 9 * 0x1_0000 + 'C' as int, 11 * 0x1_0000 + 'H' as int,
    8 * 0x1_0000 + 'D' as int, 8 * 0x1_0000 + 'S' as int, 8 * 0x1_0000 + 'R' as int, 11 * 0x1_0000 + 'F' as int]

  lemma AllScraperKeysOfNames()
    ensures |AllScrapers| == |AllScraperKeys|
    ensures forall i :: 0 <= i < |AllScrapers| ==> NameKey(AllScrapers[i].name) == AllScraperKeys[i]
  {
    forall i | 0 <= i < |AllScrapers| ensures NameKey(AllScrapers[i].name) == AllScraperKeys[i] {
      if i == 0 {
        assert AllScrapers[i] == ShadCn;
      } else if i == 1 {
        assert AllScrapers[i] == ArkUi;
      } else if i == 2 {
        assert AllScrapers[i] == ZagJs;
      } else if i == 3 {
        assert AllScrapers[i] == NextUi;
      } else if i == 4 {
        assert AllScrapers[i] == BaseUi;
      } else if i == 5 {
        assert AllScrapers[i] == ArekUi;
      } else if i == 6 {
        assert AllScrapers[i] == MaterialUi;
      } else if i == 7 {
        assert AllScrapers[i] == ReactAria;
      } else if i == 8 {
        assert AllScrapers[i] == ParkUi;
      } else if i == 9 {
        assert AllScrapers[i] == ReactBootstrap;
      } else if i == 10 {
        assert AllScrapers[i] == AntDesign;
      } else if i == 11 {
        assert AllScrapers[i] == SemanticUi;
      } else if i == 12 {
        assert AllScrapers[i] == BlueprintJs;
      } else if i == 13 {
        assert AllScrapers[i] == ThemeUi;
      } else if i == 14 {
        assert AllScrapers[i] == ChakraUi;
      } else if i == 15 {
        assert AllScrapers[i] == HeadlessUi;
      } else if i == 16 {
        assert AllScrapers[i] == DaisyUi;
      } else if i == 17 {
        assert AllScrapers[i] == SeekOss;
      } else if i == 18 {
        assert AllScrapers[i] == RadixUi;
      } else {
        assert AllScrapers[i] == Fluent2Ui;
      }
    }
  }

  lemma AllScraperKeysDistinct()
    ensures Seqs.Distinct(AllScraperKeys)
  {
  }

  /** There are twenty scrapers; each tags a site, and no two share a name. */
  lemma AllScrapersTagged()
    ensures |AllScrapers| == 20
    ensures forall i :: 0 <= i < |AllScrapers| ==> AllScrapers[i].site.Some?
    ensures Seqs.Distinct(ScraperNames(AllScrapers))
  {
    AllScraperKeysOfNames();
    AllScraperKeysDistinct();
    var names := ScraperNames(AllScrapers);
    forall i, j | 0 <= i < j < |names| ensures names[i] != names[j] {
      assert NameKey(names[i]) != NameKey(names[j]);
    }
  }

  // ---------------------------------------------------------------------------
  // What each library's result holds
  // ---------------------------------------------------------------------------

  /**
   * Arek UI: one component per file, named by the camel-split Pascal name; the
   * url still ends with the unsplit Pascal name.
   */
  lemma ArekUiComponents(nodes: seq<Node>, loadedAt: Timestamp, seekOss: SeekOssExtractor)
    requires Scrape(ArekUi, nodes, loadedAt, seekOss).Some?
    ensures var cs := Scrape(ArekUi, nodes, loadedAt, seekOss).value.components;
      && |cs| == |nodes|
      && forall i :: 0 <= i < |nodes| ==>
        var p := FileName(nodes[i].firstChildText).value;
        cs[i] == Component(SplitCamelcase(p), "https://arek-ui.fly.dev/?q=" + p)
  {
  }

  /** React Aria: one component per link, camel-split name, url as extracted. */
  lemma ReactAriaComponents(nodes: seq<Node>, loadedAt: Timestamp, seekOss: SeekOssExtractor)
    ensures Scrape(ReactAria, nodes, loadedAt, seekOss).Some?
    ensures var cs := Scrape(ReactAria, nodes, loadedAt, seekOss).value.components;
      && |cs| == |nodes|
      && forall i :: 0 <= i < |nodes| ==>
        cs[i] == Component(SplitCamelcase(nodes[i].firstChildText), "https://react-spectrum.adobe.com/" + nodes[i].href)
  {
  }

  /** Material UI: every link except the two excluded kinds, in order. */
  lemma MaterialUiLinks(nodes: seq<Node>, loadedAt: Timestamp, seekOss: SeekOssExtractor)
    ensures Scrape(MaterialUi, nodes, loadedAt, seekOss).Some?
    ensures var cs := Scrape(MaterialUi, nodes, loadedAt, seekOss).value.components;
      && |cs| <= |nodes|
      && forall c :: c in cs <==> c in ComponentLinks(nodes, "https://mui.com") && MaterialUiKeeps(c)
  {
  }

  /** Ant Design: no component name starts with `_`, and every url starts with the site's base. */
  lemma AntDesignLinks(nodes: seq<Node>, loadedAt: Timestamp, seekOss: SeekOssExtractor)
    requires Scrape(AntDesign, nodes, loadedAt, seekOss).Some?
    ensures var cs := Scrape(AntDesign, nodes, loadedAt, seekOss).value.components;
      && |cs| <= |nodes|
      && forall i :: 0 <= i < |cs| ==> !("_" <= cs[i].name) && "https://ant.design/" <= cs[i].url
  {
    var ex := GithubDirectoryFolderLinks(nodes, "https://ant.design/").value;
    var cs := AntDesignComponents(ex);
    assert Scrape(AntDesign, nodes, loadedAt, seekOss).value.components == cs;
    assert forall d :: d in ex ==> "https://ant.design/" <= d.url;
    forall i | 0 <= i < |cs| ensures "https://ant.design/" <= cs[i].url {
      assert cs[i] in cs;
    }
  }

  /** Blueprint JS: one component per folder, camel-split name, url the lower-cased link to the Pascal name. */
  lemma BlueprintJsLinks(nodes: seq<Node>, loadedAt: Timestamp, seekOss: SeekOssExtractor)
    requires Scrape(BlueprintJs, nodes, loadedAt, seekOss).Some?
    ensures var cs := Scrape(BlueprintJs, nodes, loadedAt, seekOss).value.components;
      var folders := FolderEntries(nodes);
      && |cs| == |folders|
      && forall i :: 0 <= i < |cs| ==>
        var p := PascalName(folders[i].firstChildText).value;
        cs[i] == Component(SplitCamelcase(p), LowerCase("https://blueprintjs.com/docs/#core/components/" + p))
  {
  }

  /** Theme UI: no surviving url contains `variants`. */
  lemma ThemeUiLinks(nodes: seq<Node>, loadedAt: Timestamp, seekOss: SeekOssExtractor)
    ensures Scrape(ThemeUi, nodes, loadedAt, seekOss).Some?
    ensures var cs := Scrape(ThemeUi, nodes, loadedAt, seekOss).value.components;
      && |cs| <= |nodes|
      && forall i :: 0 <= i < |cs| ==> !Contains(cs[i].url, "variants") && "https://theme-ui.com" <= cs[i].url
  {
    var ex := ComponentLinks(nodes, "https://theme-ui.com");
    var cs := ThemeUiComponents(ex);
    assert Scrape(ThemeUi, nodes, loadedAt, seekOss).value.components == cs;
    assert forall d :: d in ex ==> "https://theme-ui.com" <= d.url;
    forall i | 0 <= i < |cs| ensures "https://theme-ui.com" <= cs[i].url {
      assert cs[i] in cs;
    }
  }

  /** React Bootstrap: one component per link, with the link's url. */
  lemma ReactBootstrapLinks(nodes: seq<Node>, loadedAt: Timestamp, seekOss: SeekOssExtractor)
    ensures Scrape(ReactBootstrap, nodes, loadedAt, seekOss).Some?
    ensures var cs := Scrape(ReactBootstrap, nodes, loadedAt, seekOss).value.components;
      && |cs| == |nodes|
      && forall i :: 0 <= i < |nodes| ==>
        cs[i].url == "https://react-bootstrap.github.io" + nodes[i].href
        && cs[i].name == CapitalizeSubsequentWords(DropTrailingS(nodes[i].firstChildText))
  {
  }
}
