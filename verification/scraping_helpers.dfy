/**
 * The name normalisers and the node-to-component extractors of the scraping
 * helpers (app/scapingHelpers.ts).
 *
 * Fetching the page and selecting its nodes are not modelled: an extractor
 * receives the nodes the selector matched, in document order, each with the
 * text of its first child, its whole text content and its `href`.
 */
module ScrapingHelpers {
  import opened Text
  import Seqs
  import EffectString

  /** One node matched by the link selector. */
  datatype Node = Node(firstChildText: string, textContent: string, href: string)

  /** One component of a UI library: its display name and the page it links to. */
  datatype Component = Component(name: string, url: string)

  // ---------------------------------------------------------------------------
  // splitCamelcase: s.replaceAll(/([a-z])([A-Z])/g, '$1 $2')
  // ---------------------------------------------------------------------------

  /** A lower-case ASCII letter at `i` directly followed by an upper-case one. */
  predicate CamelBoundary(s: string, i: int) {
    0 <= i && i + 1 < |s| && IsLower(s[i]) && IsUpper(s[i + 1])
  }

  predicate NoCamelBoundary(s: string) {
    forall i :: 0 <= i < |s| ==> !CamelBoundary(s, i)
  }

  /**
   * The global replacement scans left to right; a match is a lower-upper pair,
   * which is emitted with a space between, and the scan resumes after it.
   */
  function SplitCamelcase(s: string): (r: string)
    ensures |r| >= |s|
    ensures s == [] ==> r == []
    ensures s != [] ==> r[0] == s[0]
    decreases |s|
  {
    if |s| < 2 then s
    else if IsLower(s[0]) && IsUpper(s[1]) then [s[0], ' ', s[1]] + SplitCamelcase(s[2..])
    else [s[0]] + SplitCamelcase(s[1..])
  }

  /** Reference: every character, followed by a space exactly where a camel boundary starts. */
  function SpacedAtBoundaries(s: string): string
    decreases |s|
  {
    if s == [] then []
    else (if CamelBoundary(s, 0) then [s[0], ' '] else [s[0]]) + SpacedAtBoundaries(s[1..])
  }

  /** Number of camel boundaries in `s`. */
  function CountBoundaries(s: string): nat
    decreases |s|
  {
    if |s| < 2 then 0 else (if CamelBoundary(s, 0) then 1 else 0) + CountBoundaries(s[1..])
  }

  /** splitCamelcase inserts one space at every camel boundary and changes nothing else. */
  lemma {:induction false} SplitCamelcaseInsertsSpaces(s: string)
    ensures SplitCamelcase(s) == SpacedAtBoundaries(s)
    decreases |s|
  {
    if |s| == 1 {
      assert SpacedAtBoundaries(s) == [s[0]] + SpacedAtBoundaries([]);
    } else if |s| >= 2 {
      if IsLower(s[0]) && IsUpper(s[1]) {
        SplitCamelcaseInsertsSpaces(s[2..]);
        assert s[1..][1..] == s[2..];
        assert !CamelBoundary(s[1..], 0);
        assert SpacedAtBoundaries(s[1..]) == [s[1]] + SpacedAtBoundaries(s[2..]);
      } else {
        SplitCamelcaseInsertsSpaces(s[1..]);
      }
    }
  }

  lemma {:induction false} SpacedAtBoundariesLength(s: string)
    ensures |SpacedAtBoundaries(s)| == |s| + CountBoundaries(s)
    decreases |s|
  {
    if s != [] {
      SpacedAtBoundariesLength(s[1..]);
    }
  }

  /** The output is longer than the input by the number of camel boundaries. */
  lemma SplitCamelcaseLength(s: string)
    ensures |SplitCamelcase(s)| == |s| + CountBoundaries(s)
  {
    SplitCamelcaseInsertsSpaces(s);
    SpacedAtBoundariesLength(s);
  }

  lemma {:induction false} BoundaryCounted(s: string, i: int)
    requires CamelBoundary(s, i)
    ensures CountBoundaries(s) > 0
    decreases |s|
  {
    if i > 0 {
      assert CamelBoundary(s[1..], i - 1);
      BoundaryCounted(s[1..], i - 1);
    }
  }

  /** The output has no lower-case letter directly followed by an upper-case one. */
  lemma {:induction false} SplitCamelcaseNoBoundary(s: string)
    ensures NoCamelBoundary(SplitCamelcase(s))
    decreases |s|
  {
    var r := SplitCamelcase(s);
    if |s| >= 2 {
      if IsLower(s[0]) && IsUpper(s[1]) {
        var rest := SplitCamelcase(s[2..]);
        SplitCamelcaseNoBoundary(s[2..]);
        assert r == [s[0], ' ', s[1]] + rest;
        forall i | 0 <= i < |r| ensures !CamelBoundary(r, i) {
          if i >= 3 {
            assert r[i] == rest[i - 3];
            assert i + 1 < |r| ==> r[i + 1] == rest[i - 2];
            assert !CamelBoundary(rest, i - 3);
          }
        }
      } else {
        var rest := SplitCamelcase(s[1..]);
        SplitCamelcaseNoBoundary(s[1..]);
        assert r == [s[0]] + rest;
        forall i | 0 <= i < |r| ensures !CamelBoundary(r, i) {
          if i >= 1 {
            assert r[i] == rest[i - 1];
            assert i + 1 < |r| ==> r[i + 1] == rest[i];
            assert !CamelBoundary(rest, i - 1);
          }
        }
      }
    }
  }

  lemma {:induction false} SplitCamelcaseFixed(s: string)
    requires NoCamelBoundary(s)
    ensures SplitCamelcase(s) == s
    decreases |s|
  {
    if |s| >= 2 {
      assert !CamelBoundary(s, 0);
      assert NoCamelBoundary(s[1..]) by {
        forall i | 0 <= i < |s| - 1 ensures !CamelBoundary(s[1..], i) {
          assert !CamelBoundary(s, i + 1);
        }
      }
      SplitCamelcaseFixed(s[1..]);
      assert s == [s[0]] + s[1..];
    }
  }

  /** splitCamelcase leaves a string unchanged exactly when it has no camel boundary. */
  lemma SplitCamelcaseUnchangedIff(s: string)
    ensures SplitCamelcase(s) == s <==> NoCamelBoundary(s)
  {
    if NoCamelBoundary(s) {
      SplitCamelcaseFixed(s);
    } else {
      var i :| 0 <= i < |s| && CamelBoundary(s, i);
      BoundaryCounted(s, i);
      SplitCamelcaseLength(s);
    }
  }

  /** splitCamelcase is idempotent. */
  lemma SplitCamelcaseIdempotent(s: string)
    ensures SplitCamelcase(SplitCamelcase(s)) == SplitCamelcase(s)
  {
    SplitCamelcaseNoBoundary(s);
    SplitCamelcaseFixed(SplitCamelcase(s));
  }

  // ---------------------------------------------------------------------------
  // capitalizeSubsequentWords: s.replaceAll(/\s[a-z]/g, (m) => m.toUpperCase())
  // ---------------------------------------------------------------------------

  /** An `a`-`z` letter at `i` directly after a white-space character. */
  predicate StartsWord(s: string, i: int) {
    0 < i < |s| && IsSpace(s[i - 1]) && IsLower(s[i])
  }

  /**
   * The global replacement scans left to right; a match is a white-space
   * character and a lower-case letter, emitted upper-cased (which changes
   * only the letter), and the scan resumes after it.
   */
  function CapitalizeSubsequentWords(s: string): (r: string)
    ensures |r| == |s|
    decreases |s|
  {
    if |s| < 2 then s
    else if IsSpace(s[0]) && IsLower(s[1]) then [s[0], ToUpper(s[1])] + CapitalizeSubsequentWords(s[2..])
    else [s[0]] + CapitalizeSubsequentWords(s[1..])
  }

  /**
   * Exactly the letters that start a word after white space are upper-cased;
   * every other character, the first included, is kept.
   */
  lemma {:induction false} CapitalizeSubsequentWordsAt(s: string)
    ensures forall i :: 0 <= i < |s| ==>
      CapitalizeSubsequentWords(s)[i] == if StartsWord(s, i) then ToUpper(s[i]) else s[i]
    decreases |s|
  {
    var r := CapitalizeSubsequentWords(s);
    if |s| >= 2 {
      if IsSpace(s[0]) && IsLower(s[1]) {
        var rest := CapitalizeSubsequentWords(s[2..]);
        CapitalizeSubsequentWordsAt(s[2..]);
        forall i | 2 <= i < |s|
          ensures r[i] == if StartsWord(s, i) then ToUpper(s[i]) else s[i]
        {
          assert r[i] == rest[i - 2];
          assert s[2..][i - 2] == s[i];
          if i > 2 { assert s[2..][i - 3] == s[i - 1]; }
        }
      } else {
        var rest := CapitalizeSubsequentWords(s[1..]);
        CapitalizeSubsequentWordsAt(s[1..]);
        forall i | 1 <= i < |s|
          ensures r[i] == if StartsWord(s, i) then ToUpper(s[i]) else s[i]
        {
          assert r[i] == rest[i - 1];
          assert s[1..][i - 1] == s[i];
          if i > 1 { assert s[1..][i - 2] == s[i - 1]; }
        }
      }
    }
  }

  /** capitalizeSubsequentWords is idempotent. */
  lemma CapitalizeSubsequentWordsIdempotent(s: string)
    ensures CapitalizeSubsequentWords(CapitalizeSubsequentWords(s)) == CapitalizeSubsequentWords(s)
  {
    var r := CapitalizeSubsequentWords(s);
    CapitalizeSubsequentWordsAt(s);
    CapitalizeSubsequentWordsAt(r);
  }

  // ---------------------------------------------------------------------------
  // The file-name pipeline of scrapeGithubDirectoryFileLinks
  // ---------------------------------------------------------------------------

  /**
   * `t.replace(/\..+$/, '')`: the match starts at the first `.` that has at
   * least one character after it, all of them on the same line (`.` does not
   * match a line terminator), and runs to the end; the replacement cuts it off.
   */
  function RemoveExtension(t: string): (r: string)
    ensures r <= t
    decreases |t|
  {
    if t == [] then []
    else if t[0] == '.' && |t| >= 2 && NoLineTerminator(t[1..]) then []
    else [t[0]] + RemoveExtension(t[1..])
  }

  /**
   * On one line: if the first `.` is not the last character, everything from
   * it on is removed; otherwise the text is unchanged.
   */
  lemma {:induction false} RemoveExtensionOnOneLine(t: string)
    requires NoLineTerminator(t)
    ensures IndexOf(t, ".").None? ==> RemoveExtension(t) == t
    ensures IndexOf(t, ".").Some? ==>
      (var i := IndexOf(t, ".").value; RemoveExtension(t) == if i < |t| - 1 then t[..i] else t)
    decreases |t|
  {
    if t == [] {
    } else if t[0] == '.' {
      assert "." <= t;
      if |t| == 1 {
        assert RemoveExtension(t) == [t[0]] + RemoveExtension([]);
      }
    } else {
      assert !("." <= t);
      var tail := t[1..];
      RemoveExtensionOnOneLine(tail);
      assert RemoveExtension(t) == [t[0]] + RemoveExtension(tail);
      assert t == [t[0]] + tail;
      if IndexOf(tail, ".").Some? {
        var j := IndexOf(tail, ".").value;
        assert IndexOf(t, ".") == Some(j + 1);
        assert t[..j + 1] == [t[0]] + tail[..j];
      } else {
        assert IndexOf(t, ".") == None;
      }
    }
  }

  predicate AllDigits(s: string) {
    forall i :: 0 <= i < |s| ==> IsDigit(s[i])
  }

  /**
   * `p.replace(/\d+$/, '')`: the match is the run of digits that ends the
   * string; the result is the input without it, so it never ends in a digit.
   */
  function RemoveTrailingDigits(s: string): (r: string)
    ensures r <= s
    ensures AllDigits(s[|r|..])
    ensures r == [] || !IsDigit(r[|r| - 1])
    decreases |s|
  {
    if s == [] || AllDigits(s) then []
    else [s[0]] + RemoveTrailingDigits(s[1..])
  }

  /** The three properties of RemoveTrailingDigits determine its result. */
  lemma {:induction false} RemoveTrailingDigitsUnique(s: string, p: string)
    requires p <= s && AllDigits(s[|p|..]) && (p == [] || !IsDigit(p[|p| - 1]))
    ensures RemoveTrailingDigits(s) == p
    decreases |s|
  {
    if s != [] && !AllDigits(s) {
      assert p != [];
      assert s[|p|..] == s[1..][|p| - 1..];
      RemoveTrailingDigitsUnique(s[1..], p[1..]);
    }
  }

  lemma RemoveTrailingDigitsIdempotent(s: string)
    ensures RemoveTrailingDigits(RemoveTrailingDigits(s)) == RemoveTrailingDigits(s)
  {
    var r := RemoveTrailingDigits(s);
    RemoveTrailingDigitsUnique(r, r);
  }

  /**
   * `String.snakeToPascal(String.kebabToSnake(t)).replace(/\d+$/, '')`;
   * `None` when snakeToPascal throws.
   */
  function PascalName(t: string): (r: Option<string>)
    ensures r.Some? ==> r.value == [] || !IsDigit(r.value[|r.value| - 1])
  {
    match EffectString.SnakeToPascal(EffectString.KebabToSnake(t))
    case None => None
    case Some(p) => Some(RemoveTrailingDigits(p))
  }

  /** The name of a file entry: its extension removed, then PascalName. */
  function FileName(t: string): Option<string> {
    PascalName(RemoveExtension(t))
  }

  /** The name pipeline throws exactly on an empty stem and on an odd run of `-`/`_` separators at its end. */
  lemma PascalNameDefined(t: string)
    ensures PascalName(t).Some? <==>
      t != [] && EffectString.TrailingUnderscores(EffectString.KebabToSnake(t)[1..]) % 2 == 0
  {
    EffectString.SnakeToPascalDefined(EffectString.KebabToSnake(t));
  }

  /** A stem without `-`, `_` or a final digit only gets its first character upper-cased. */
  lemma PascalNameOfPlainWord(t: string)
    requires t != [] && '_' !in t && '-' !in t
    requires !IsDigit(t[|t| - 1])
    ensures PascalName(t) == Some([ToUpper(t[0])] + t[1..])
  {
    var k := EffectString.KebabToSnake(t);
    assert k == t;
    EffectString.SnakeToPascalWithoutUnderscore(t);
    var p := [ToUpper(t[0])] + t[1..];
    if |t| == 1 {
      assert !IsDigit(ToUpper(t[0]));
    }
    RemoveTrailingDigitsUnique(p, p);
  }

  // ---------------------------------------------------------------------------
  // The three extractors
  // ---------------------------------------------------------------------------

  /**
   * `scrapeComponentLinks`: one component per matched node, named by the text
   * of the node's first child and linking to `base` followed by its `href`.
   */
  function ComponentLinks(nodes: seq<Node>, base: string): (r: seq<Component>)
    ensures |r| == |nodes|
    ensures forall i :: 0 <= i < |nodes| ==>
      r[i].name == nodes[i].firstChildText && r[i].url == base + nodes[i].href
  {
    Seqs.Map((n: Node) => Component(n.firstChildText, base + n.href), nodes)
  }

  /** Mapping the nodes keeps their order: the links of `a + b` are those of `a`, then those of `b`. */
  lemma {:induction false} ComponentLinksConcat(a: seq<Node>, b: seq<Node>, base: string)
    ensures ComponentLinks(a + b, base) == ComponentLinks(a, base) + ComponentLinks(b, base)
  {
    var l, la, lb := ComponentLinks(a + b, base), ComponentLinks(a, base), ComponentLinks(b, base);
    assert |l| == |la + lb|;
    forall i | 0 <= i < |l| ensures l[i] == (la + lb)[i] {
      if i < |a| {
        assert (a + b)[i] == a[i];
      } else {
        assert (a + b)[i] == b[i - |a|];
      }
    }
  }

  /** A component named `name` linking to `base` followed by that name. */
  function NamedLink(base: string, name: Option<string>): Option<Component> {
    match name
    case None => None
    case Some(p) => Some(Component(p, base + p))
  }

  /**
   * The mapping shared by the two GitHub directory extractors: each node is
   * named by `nameOf` of its first child's text and links to `base` followed by
   * that name. The whole mapping fails when one name throws.
   */
  function GithubLinks(nodes: seq<Node>, base: string, nameOf: string -> Option<string>): (r: Option<seq<Component>>)
    ensures r.Some? <==> forall i :: 0 <= i < |nodes| ==> nameOf(nodes[i].firstChildText).Some?
    ensures r.Some? ==> |r.value| == |nodes|
    ensures r.Some? ==> forall i :: 0 <= i < |nodes| ==>
      r.value[i].name == nameOf(nodes[i].firstChildText).value && r.value[i].url == base + r.value[i].name
  {
    var links := Seqs.Map((n: Node) => NamedLink(base, nameOf(n.firstChildText)), nodes);
    assert forall i :: 0 <= i < |nodes| ==> (links[i].Some? <==> nameOf(nodes[i].firstChildText).Some?);
    Seqs.Collect(links)
  }

  /**
   * `scrapeGithubDirectoryFileLinks`: one component per matched node, named by
   * FileName, linking to `base` followed by the name; fails when a name throws.
   */
  function GithubDirectoryFileLinks(nodes: seq<Node>, base: string): (r: Option<seq<Component>>)
    ensures r.Some? <==> forall i :: 0 <= i < |nodes| ==> FileName(nodes[i].firstChildText).Some?
    ensures r.Some? ==> |r.value| == |nodes|
    ensures r.Some? ==> forall i :: 0 <= i < |nodes| ==>
      && r.value[i].name == FileName(nodes[i].firstChildText).value
      && r.value[i].url == base + r.value[i].name
      && (r.value[i].name == [] || !IsDigit(r.value[i].name[|r.value[i].name| - 1]))
  {
    GithubLinks(nodes, base, FileName)
  }

  /** A directory entry whose first-child text has no `.` is taken for a folder. */
  predicate IsFolderEntry(n: Node) {
    '.' !in n.firstChildText
  }

  /** `links.filter((link) => !link.firstChild.textContent.includes('.'))` */
  function FolderEntries(nodes: seq<Node>): (r: seq<Node>)
    ensures |r| <= |nodes|
    ensures forall n :: n in r <==> n in nodes && IsFolderEntry(n)
  {
    Seqs.Filter(IsFolderEntry, nodes)
  }

  /** Filtering keeps the folders in their original order. */
  lemma FolderEntriesConcat(a: seq<Node>, b: seq<Node>)
    ensures FolderEntries(a + b) == FolderEntries(a) + FolderEntries(b)
  {
    Seqs.FilterConcat(IsFolderEntry, a, b);
  }

  /**
   * `scrapeGithubDirectoryFolderLinks`: one component per folder entry, in
   * order, named by PascalName of the whole text (no extension is removed),
   * linking to `base` followed by the name; fails when a name throws.
   */
  function GithubDirectoryFolderLinks(nodes: seq<Node>, base: string): (r: Option<seq<Component>>)
    ensures r.Some? <==> forall n :: n in FolderEntries(nodes) ==> PascalName(n.firstChildText).Some?
    ensures r.Some? ==> |r.value| == |FolderEntries(nodes)| <= |nodes|
    ensures r.Some? ==> forall i :: 0 <= i < |r.value| ==>
      && r.value[i].name == PascalName(FolderEntries(nodes)[i].firstChildText).value
      && r.value[i].url == base + r.value[i].name
      && '.' !in FolderEntries(nodes)[i].firstChildText
  {
    var folders := FolderEntries(nodes);
    assert forall i :: 0 <= i < |folders| ==> folders[i] in folders;
    GithubLinks(folders, base, PascalName)
  }
}
