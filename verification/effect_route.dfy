/**
 * The experimental route app/routes/effect.tsx: three sections (Shadcn,
 * Ark UI, ZagJS), each listing the links one page offers. It names a link by
 * its whole text with `textContent.replaceAll(/\.css.*}/g, '')`, which cuts
 * out the CSS that some of those pages inline into their links.
 */
module EffectRoute {
  import opened Text
  import opened ScrapingHelpers
  import Seqs

  // ---------------------------------------------------------------------------
  // `s.replaceAll(/\.css.*}/g, '')`
  // ---------------------------------------------------------------------------

  /** Length of the first line of `s`: the characters `.*` may consume. */
  function LineRun(s: string): (n: nat)
    ensures n <= |s|
    ensures forall j :: 0 <= j < n ==> !IsLineTerminator(s[j])
    ensures n < |s| ==> IsLineTerminator(s[n])
  {
    if s == [] || IsLineTerminator(s[0]) then 0 else 1 + LineRun(s[1..])
  }

  /**
   * Length of the match of `\.css.*}` at the start of `s`, if any: after
   * `.css`, the greedy `.*` takes the rest of the line, then gives characters
   * back until a `}` follows.
   */
  function CssMatchAt(s: string): (r: Option<nat>)
    ensures r.Some? ==> 5 <= r.value <= |s| && ".css" <= s && s[r.value - 1] == '}'
  {
    if ".css" <= s then
      match LastIndexOf(s[4..4 + LineRun(s[4..])], '}')
      case None => None
      case Some(k) => Some(4 + k + 1)
    else None
  }

  /**
   * `s.replaceAll(/\.css.*}/g, '')`: scanning from the left, each match is cut
   * out and the scan resumes after it; where no match starts, one character
   * is kept.
   */
  function CssCleanup(s: string): (r: string)
    ensures |r| <= |s|
    decreases |s|
  {
    if s == [] then []
    else match CssMatchAt(s)
      case Some(n) => CssCleanup(s[n..])
      case None => [s[0]] + CssCleanup(s[1..])
  }

  /** `.css` at `m` and a `}` at `j` after it on the same line: a text the pattern matches. */
  predicate CssBlockAt(s: string, m: int, j: int) {
    && OccursAt(s, ".css", m)
    && m + 4 <= j < |s|
    && s[j] == '}'
    && forall p :: m + 4 <= p < j ==> !IsLineTerminator(s[p])
  }

  ghost predicate HasCssBlock(s: string) {
    exists m, j :: CssBlockAt(s, m, j)
  }

  /** A match starts at the front exactly when a block starts there. */
  lemma CssMatchAtIff(s: string)
    ensures CssMatchAt(s).Some? <==> exists j :: CssBlockAt(s, 0, j)
  {
    if ".css" <= s {
      var t := s[4..];
      var n := LineRun(t);
      var line := t[..n];
      assert OccursAt(s, ".css", 0) by {
        assert s[0..4] == ".css";
      }
      match LastIndexOf(line, '}')
      case Some(k) =>
        assert s[4 + k] == line[k];
        assert CssBlockAt(s, 0, 4 + k);
      case None =>
        forall j ensures !CssBlockAt(s, 0, j) {
          if 4 <= j < 4 + n {
            assert line[j - 4] == s[j];
          }
        }
    } else {
      forall j ensures !CssBlockAt(s, 0, j) {
        if 4 <= |s| {
          assert s[0..4] == s[..4];
        }
      }
    }
  }

  /** Blocks of `s[1..]` are those of `s` shifted by one, except one starting at 0. */
  lemma CssBlockShift(s: string, m: int, j: int)
    requires s != [] && 1 <= m
    ensures CssBlockAt(s, m, j) <==> CssBlockAt(s[1..], m - 1, j - 1)
  {
    OccursAtTail(s, ".css");
  }

  /** Where a block remains, the cleanup removes characters. */
  lemma {:induction false} CssCleanupShrinks(s: string)
    requires HasCssBlock(s)
    ensures |CssCleanup(s)| < |s|
    decreases |s|
  {
    var m, j :| CssBlockAt(s, m, j);
    CssMatchAtIff(s);
    if CssMatchAt(s).None? {
      assert m != 0;
      CssBlockShift(s, m, j);
      CssCleanupShrinks(s[1..]);
    }
  }

  /** Where no block is, the cleanup keeps the text as it is. */
  lemma {:induction false} CssCleanupKeeps(s: string)
    requires !HasCssBlock(s)
    ensures CssCleanup(s) == s
    decreases |s|
  {
    if s != [] {
      CssMatchAtIff(s);
      assert CssMatchAt(s).None?;
      forall m, j | CssBlockAt(s[1..], m, j) ensures false {
        CssBlockShift(s, m + 1, j + 1);
      }
      CssCleanupKeeps(s[1..]);
      assert s == [s[0]] + s[1..];
    }
  }

  /** The cleanup changes a text exactly when the pattern matches somewhere in it. */
  lemma CssCleanupUnchangedIff(s: string)
    ensures CssCleanup(s) == s <==> !HasCssBlock(s)
  {
    if HasCssBlock(s) {
      CssCleanupShrinks(s);
    } else {
      CssCleanupKeeps(s);
    }
  }

  /**
   * On one line, the cleanup through string indices: from the first `.css`
   * through the last `}`, provided that `}` comes after the `.css`.
   */
  function CutCssSpan(s: string): string {
    match (IndexOf(s, ".css"), LastIndexOf(s, '}'))
    case (Some(i), Some(k)) => if i + 4 <= k then s[..i] + s[k + 1..] else s
    case _ => s
  }

  /** On a text without `}`, nothing matches. */
  lemma NoCloseNoBlock(s: string)
    requires forall j :: 0 <= j < |s| ==> s[j] != '}'
    ensures !HasCssBlock(s)
  {
  }

  /** On one line that starts with `.css`, the match runs to the line's last `}`. */
  lemma CssMatchAtFront(s: string, k: nat)
    requires NoLineTerminator(s) && ".css" <= s
    requires 4 <= k < |s| && s[k] == '}' && forall j :: k < j < |s| ==> s[j] != '}'
    ensures CssMatchAt(s) == Some(k + 1)
  {
    var t := s[4..];
    assert LineRun(t) == |t|;
    assert s[4..4 + LineRun(t)] == t;
    assert t[k - 4] == '}';
    assert LastIndexOf(t, '}') == Some(k - 4);
  }

  /** The match at the first `.css` of a line reaches the line's last `}`. */
  lemma {:induction false} CssCleanupCut(s: string, i: nat, k: nat)
    requires NoLineTerminator(s)
    requires OccursAt(s, ".css", i) && forall m :: 0 <= m < i ==> !OccursAt(s, ".css", m)
    requires i + 4 <= k < |s| && s[k] == '}' && forall j :: k < j < |s| ==> s[j] != '}'
    ensures CssCleanup(s) == s[..i] + s[k + 1..]
    decreases i
  {
    if i == 0 {
      assert ".css" <= s by {
        assert s[0..4] == s[..4];
      }
      CssMatchAtFront(s, k);
      assert CssCleanup(s) == CssCleanup(s[k + 1..]);
      NoCloseNoBlock(s[k + 1..]);
      CssCleanupKeeps(s[k + 1..]);
      assert s[..0] + s[k + 1..] == s[k + 1..];
    } else {
      var u := s[1..];
      OccursAtTail(s, ".css");
      assert CssMatchAt(s).None?;
      assert CssCleanup(s) == [s[0]] + CssCleanup(u);
      forall m | 0 <= m < i - 1 ensures !OccursAt(u, ".css", m) {
        assert !OccursAt(s, ".css", m + 1);
      }
      assert OccursAt(u, ".css", i - 1);
      assert NoLineTerminator(u);
      CssCleanupCut(u, i - 1, k - 1);
      assert s[..i] == [s[0]] + u[..i - 1];
      assert s[k + 1..] == u[k..];
    }
  }

  /**
   * On a text of one line, the cleanup is CutCssSpan: one match at most, from
   * the first `.css` to the last `}`.
   */
  lemma CssCleanupOnOneLine(s: string)
    requires NoLineTerminator(s)
    ensures CssCleanup(s) == CutCssSpan(s)
  {
    match (IndexOf(s, ".css"), LastIndexOf(s, '}'))
    case (Some(i), Some(k)) =>
      if i + 4 <= k {
        CssCleanupCut(s, i, k);
      } else {
        CssCleanupKeeps(s);
      }
    case _ =>
      CssCleanupKeeps(s);
  }

  /** On one line, cleaning twice is cleaning once: nothing the pattern matches is left. */
  lemma CssCleanupIdempotent(s: string)
    requires NoLineTerminator(s)
    ensures !HasCssBlock(CssCleanup(s))
    ensures CssCleanup(CssCleanup(s)) == CssCleanup(s)
  {
    CssCleanupOnOneLine(s);
    match (IndexOf(s, ".css"), LastIndexOf(s, '}'))
    case (Some(i), Some(k)) =>
      if i + 4 <= k {
        var r := s[..i] + s[k + 1..];
        forall m, j ensures !CssBlockAt(r, m, j) {
          if 0 <= m && m + 4 <= j < i {
            assert r[m..m + 4] == s[m..m + 4];
            assert !OccursAt(s, ".css", m);
            assert !OccursAt(r, ".css", m);
          } else if i <= j < |r| {
            assert r[j] == s[k + 1 + j - i];
            assert r[j] != '}';
          }
        }
        CssCleanupKeeps(r);
      } else {
        CssCleanupUnchangedIff(s);
      }
    case _ =>
      CssCleanupUnchangedIff(s);
  }

  /** On one line, the result is a prefix of the text joined to a suffix of it that holds no `}`. */
  lemma CssCleanupKeepsEnds(s: string)
    requires NoLineTerminator(s)
    ensures exists p, q :: (0 <= p <= q <= |s| && CssCleanup(s) == s[..p] + s[q..]
      && forall j :: q <= j < |s| ==> s[j] != '}')
  {
    CssCleanupOnOneLine(s);
    var i, k := IndexOf(s, ".css"), LastIndexOf(s, '}');
    var p, q := |s|, |s|;
    if i.Some? && k.Some? && i.value + 4 <= k.value {
      p, q := i.value, k.value + 1;
    }
    assert CssCleanup(s) == s[..p] + s[q..];
    assert forall j :: q <= j < |s| ==> s[j] != '}';
  }

  // ---------------------------------------------------------------------------
  // The loader and the page
  // ---------------------------------------------------------------------------

  /** The route's `scrapeComponentLinks`: each link named by its whole text with the CSS cut out. */
  function SectionLinks(nodes: seq<Node>, base: string): (r: seq<Component>)
    ensures |r| == |nodes|
    ensures forall i :: 0 <= i < |nodes| ==> r[i].url == base + nodes[i].href
  {
    Seqs.Map((n: Node) => Component(CssCleanup(n.textContent), base + n.href), nodes)
  }

  /**
   * A link's name is its text when the text holds no CSS block; on a text of
   * one line it is the text with the CSS span cut out, and no block is left.
   */
  lemma SectionLinkNames(nodes: seq<Node>, base: string, i: nat)
    requires i < |nodes|
    ensures !HasCssBlock(nodes[i].textContent) ==> SectionLinks(nodes, base)[i].name == nodes[i].textContent
    ensures NoLineTerminator(nodes[i].textContent) ==>
      && SectionLinks(nodes, base)[i].name == CutCssSpan(nodes[i].textContent)
      && !HasCssBlock(SectionLinks(nodes, base)[i].name)
  {
    var text := nodes[i].textContent;
    assert SectionLinks(nodes, base)[i].name == CssCleanup(text);
    CssCleanupUnchangedIff(text);
    if NoLineTerminator(text) {
      CssCleanupOnOneLine(text);
      CssCleanupIdempotent(text);
    }
  }

  /** One page's result: when it was extracted and its links. */
  datatype Section = Section(loadedAt: Timestamp, components: seq<Component>)

  /** When a page's components were extracted (`new Date()`), supplied by the caller. */
  type Timestamp = int

  datatype Sections = Sections(shadcn: Section, arkUi: Section, zagJs: Section)

  function LoadSection(page: Option<seq<Node>>, base: string, loadedAt: Timestamp): Option<Section> {
    match page
    case None => None
    case Some(nodes) => Some(Section(loadedAt, SectionLinks(nodes, base)))
  }

  /**
   * The loader: `Effect.all` over the three pages, given the nodes each
   * selector matched (`None` when the request failed) and the moments of
   * extraction. It fails when any request fails.
   */
  function Loader(shadcn: Option<seq<Node>>, arkUi: Option<seq<Node>>, zagJs: Option<seq<Node>>,
                  t0: Timestamp, t1: Timestamp, t2: Timestamp): (r: Option<Sections>)
    ensures r.Some? <==> shadcn.Some? && arkUi.Some? && zagJs.Some?
    ensures r.Some? ==>
      && r.value.shadcn == Section(t0, SectionLinks(shadcn.value, "https://ui.shadcn.com"))
      && r.value.arkUi == Section(t1, SectionLinks(arkUi.value, "https://ark-ui.com"))
      && r.value.zagJs == Section(t2, SectionLinks(zagJs.value, "https://zagjs.com"))
  {
    match (LoadSection(shadcn, "https://ui.shadcn.com", t0),
           LoadSection(arkUi, "https://ark-ui.com", t1),
           LoadSection(zagJs, "https://zagjs.com", t2))
    case (Some(a), Some(b), Some(c)) => Some(Sections(a, b, c))
    case _ => None
  }

  /** A link of a section: where it points and the text it shows. */
  datatype Link = Link(href: string, text: string)

  /** `ComponentsSection`: a title with the number of components, the load time, and one link per component. */
  datatype SectionView = SectionView(title: string, count: nat, loadedAt: Timestamp, links: seq<Link>)

  function ViewSection(title: string, s: Section): SectionView {
    SectionView(title, |s.components|, s.loadedAt, Seqs.Map((c: Component) => Link(c.url, c.name), s.components))
  }

  /** The page: the three sections, in order. */
  function Page(data: Sections): seq<SectionView> {
    [ViewSection("Shadcn", data.shadcn), ViewSection("Ark UI", data.arkUi), ViewSection("ZagJS", data.zagJs)]
  }

  /** Each section shows as many links as its heading counts, one per component, in order. */
  lemma PageShows(data: Sections)
    ensures var p := Page(data);
      var ss := [data.shadcn, data.arkUi, data.zagJs];
      && |p| == 3
      && p[0].title == "Shadcn" && p[1].title == "Ark UI" && p[2].title == "ZagJS"
      && forall s :: 0 <= s < 3 ==>
        && p[s].count == |p[s].links| == |ss[s].components|
        && p[s].loadedAt == ss[s].loadedAt
        && forall k :: 0 <= k < |ss[s].components| ==>
          p[s].links[k] == Link(ss[s].components[k].url, ss[s].components[k].name)
  {
  }
}
