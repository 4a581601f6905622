/**
 * `main` of the report generator: one section per notebook that exists and
 * renders to something, then the navigation links and the section blocks
 * that go into the page.
 *
 * Reading the notebooks is a parameter: `load(name)` is the parsed notebook,
 * or `None` when the file does not exist (a file that exists but is not
 * valid JSON aborts the run, which is not modelled). `ids(name)` supplies the chart
 * tokens of that notebook. The page's static template is not modelled.
 */
module Report {
  import opened Wrappers
  import opened Text
  import opened Numeric
  import opened Lists
  import opened Notebook

  /** The notebooks of the report, in the order of its sections. */
  const NotebookNames: seq<string> := [
    "01_tax_burden.ipynb",
    "02_spending_allocation.ipynb",
    "03_service_effectiveness.ipynb",
    "04_public_good_score.ipynb",
    "05_city_tax_burden.ipynb",
    "06_city_spending.ipynb",
    "07_city_effectiveness.ipynb",
    "08_city_public_good.ipynb"
  ]

  datatype Section = Section(title: string, fragment: string)

  /** The heading of a notebook's section: its file name without `.ipynb`, underscores as spaces, title-cased. */
  function SectionTitle(name: string): string {
    Title(ReplaceAll(ReplaceAll(name, ".ipynb", ""), "_", " "))
  }

  /** Title casing never produces an underscore that was not already there. */
  lemma {:induction false} TitleNoNewUnderscore(s: string, previousCased: bool)
    requires '_' !in s
    ensures '_' !in TitleFrom(s, previousCased)
  {
    if s != [] {
      assert s[0] in s;
      assert forall c :: c in s[1..] ==> c in s;
      TitleNoNewUnderscore(s[1..], IsCased(s[0]));
    }
  }

  /** No section heading holds an underscore. */
  lemma SectionTitleNoUnderscore(name: string)
    ensures '_' !in SectionTitle(name)
  {
    ReplaceCharLength(ReplaceAll(name, ".ipynb", ""), '_', ' ');
    TitleNoNewUnderscore(ReplaceAll(ReplaceAll(name, ".ipynb", ""), "_", " "), false);
  }

  /**
   * The title of a notebook named `stem.ipynb`, character by character: an
   * underscore becomes a space, and a letter is upper-case exactly when the
   * character before it is not a letter.
   */
  lemma SectionTitleChars(stem: string)
    requires '.' !in stem
    ensures |SectionTitle(stem + ".ipynb")| == |stem|
    ensures forall i :: 0 <= i < |stem| ==>
      SectionTitle(stem + ".ipynb")[i] == CaseAfter(Swap(stem[i], '_', ' '), i > 0 && IsCased(stem[i - 1]))
  {
    ReplaceDropsSuffix(stem, ".ipynb");
    var spaced := ReplaceAll(stem, "_", " ");
    ReplaceCharAt(stem, '_', ' ');
    TitleFromAt(spaced, false);
    forall k | 0 <= k < |stem| ensures IsCased(spaced[k]) == IsCased(stem[k]) {
    }
  }

  /** The anchor of the `i`-th section. */
  function Slug(i: nat): string {
    "section-" + NatToString(i)
  }

  /** Different sections have different anchors. */
  lemma SlugInjective(i: nat, j: nat)
    ensures Slug(i) == Slug(j) ==> i == j
  {
    if Slug(i) == Slug(j) {
      assert NatToString(i) == Slug(i)[8..] == Slug(j)[8..] == NatToString(j);
      NatToStringInjective(i, j);
    }
  }

  /** The link attribute that points at the `i`-th section's anchor. */
  function Href(i: nat): string {
    "href=\"#" + Slug(i) + "\""
  }

  /** The navigation link of the `i`-th section. */
  function NavItem(i: nat, title: string): string {
    "<a " + Href(i) + ">" + title + "</a>"
  }

  function SectionAnchor(i: nat): string {
    "<section id=\"" + Slug(i) + "\">"
  }

  function SectionHeading(title: string): string {
    "\n<h2 class=\"section-title\">" + title + "</h2>\n<div class=\"notebook-content\">"
  }

  const SectionEnd := "</div>\n</section>\n<hr>\n"

  /** The block of the `i`-th section: its anchor, its heading, its fragment. */
  function SectionBlock(i: nat, s: Section): string {
    SectionAnchor(i) + SectionHeading(s.title) + s.fragment + SectionEnd
  }

  /**
   * The sections one notebook adds: none when it is missing or renders to
   * the empty string, one otherwise; `None` where rendering raises.
   */
  function SectionsFor(name: string, load: string -> Option<Notebook>, ids: string -> ((nat, nat) -> string), dumps: Json -> string): Option<seq<Section>> {
    match load(name)
    case None => Some([])
    case Some(nb) =>
      match Fragment(nb, ids(name), dumps)
      case None => None
      case Some(fragment) => if fragment != "" then Some([Section(SectionTitle(name), fragment)]) else Some([])
  }

  function SectionStep(load: string -> Option<Notebook>, ids: string -> ((nat, nat) -> string), dumps: Json -> string): (nat, string) -> Option<seq<Section>> {
    (k: nat, name: string) => SectionsFor(name, load, ids, dumps)
  }

  function Sections(names: seq<string>, load: string -> Option<Notebook>, ids: string -> ((nat, nat) -> string), dumps: Json -> string): Option<seq<Section>> {
    Collect(SectionStep(load, ids, dumps), names)
  }

  /** The first loop of `main`: render each notebook in turn and keep the non-empty ones. */
  method CollectSections(names: seq<string>, load: string -> Option<Notebook>, ids: string -> ((nat, nat) -> string), dumps: Json -> string)
    returns (sections: Option<seq<Section>>)
    ensures sections == Sections(names, load, ids, dumps)
  {
    var acc: seq<Section> := [];
    for k := 0 to |names|
      invariant Collect(SectionStep(load, ids, dumps), names[..k]) == Some(acc)
    {
      CollectStep(SectionStep(load, ids, dumps), names, k);
      var name := names[k];
      var nb := load(name);
      if nb.None? {
        assert SectionStep(load, ids, dumps)(k, name) == Some([]);
        assert acc + [] == acc;
        continue;
      }
      var fragment := ExtractOutputs(nb.value, ids(name), dumps);
      if fragment.None? {
        assert SectionStep(load, ids, dumps)(k, name).None?;
        CollectFails(SectionStep(load, ids, dumps), names[..k + 1]);
        CollectFails(SectionStep(load, ids, dumps), names);
        return None;
      }
      if fragment.value != "" {
        assert SectionStep(load, ids, dumps)(k, name) == Some([Section(SectionTitle(name), fragment.value)]);
        acc := acc + [Section(SectionTitle(name), fragment.value)];
      } else {
        assert SectionStep(load, ids, dumps)(k, name) == Some([]);
        assert acc + [] == acc;
      }
    }
    assert names[..|names|] == names;
    sections := Some(acc);
  }

  /**
   * The second loop of `main`: a navigation link and a section block per
   * section, both numbered by the section's position.
   */
  method BuildPage(sections: seq<Section>) returns (navItems: seq<string>, blocks: seq<string>)
    ensures |navItems| == |blocks| == |sections|
    ensures forall i :: 0 <= i < |sections| ==> navItems[i] == NavItem(i, sections[i].title)
    ensures forall i :: 0 <= i < |sections| ==> blocks[i] == SectionBlock(i, sections[i])
  {
    navItems := [];
    blocks := [];
    for i := 0 to |sections|
      invariant |navItems| == |blocks| == i
      invariant forall k :: 0 <= k < i ==> navItems[k] == NavItem(k, sections[k].title)
      invariant forall k :: 0 <= k < i ==> blocks[k] == SectionBlock(k, sections[k])
    {
      navItems := navItems + [NavItem(i, sections[i].title)];
      blocks := blocks + [SectionBlock(i, sections[i])];
    }
  }

  /** The two generated parts of the page: the joined navigation links and the joined section blocks. */
  datatype Page = Page(nav: string, content: string)

  /** `main`: the sections of the report's notebooks, in order, and the two page parts built from them. */
  method GenerateReport(load: string -> Option<Notebook>, ids: string -> ((nat, nat) -> string), dumps: Json -> string)
    returns (page: Option<Page>)
    ensures page.None? <==> Sections(NotebookNames, load, ids, dumps).None?
    ensures page.Some? ==>
      var sections := Sections(NotebookNames, load, ids, dumps).value;
      exists navItems: seq<string>, blocks: seq<string> ::
        && |navItems| == |blocks| == |sections|
        && (forall i :: 0 <= i < |sections| ==> navItems[i] == NavItem(i, sections[i].title) && blocks[i] == SectionBlock(i, sections[i]))
        && page.value == Page(Concat(navItems), Concat(blocks))
  {
    var sections := CollectSections(NotebookNames, load, ids, dumps);
    if sections.None? {
      return None;
    }
    var navItems, blocks := BuildPage(sections.value);
    page := Some(Page(Concat(navItems), Concat(blocks)));
  }

  /** Each link of the navigation points at the anchor of the section in the same position. */
  lemma LinksReachSections(sections: seq<Section>, navItems: seq<string>, blocks: seq<string>, i: nat)
    requires |navItems| == |blocks| == |sections| && i < |sections|
    requires navItems[i] == NavItem(i, sections[i].title) && blocks[i] == SectionBlock(i, sections[i])
    ensures Contains(Concat(navItems), Href(i))
    ensures Contains(Concat(blocks), SectionAnchor(i))
    ensures Contains(Concat(blocks), sections[i].fragment)
  {
    ConcatContains(navItems, i);
    ConcatContains(blocks, i);
    NavItemLinks(i, sections[i].title);
    ContainsTransitive(Concat(navItems), navItems[i], Href(i));
    SectionBlockHolds(i, sections[i]);
    ContainsTransitive(Concat(blocks), blocks[i], SectionAnchor(i));
    ContainsTransitive(Concat(blocks), blocks[i], sections[i].fragment);
  }

  lemma NavItemLinks(i: nat, title: string)
    ensures Contains(NavItem(i, title), Href(i))
  {
    ContainsSelf(Href(i));
    ContainsWithin("<a ", Href(i), ">" + title + "</a>", Href(i));
    assert "<a " + Href(i) + (">" + title + "</a>") == NavItem(i, title);
  }

  lemma SectionBlockHolds(i: nat, s: Section)
    ensures Contains(SectionBlock(i, s), SectionAnchor(i))
    ensures Contains(SectionBlock(i, s), s.fragment)
  {
    ContainsPrefix(SectionAnchor(i), SectionHeading(s.title) + s.fragment + SectionEnd);
    assert SectionAnchor(i) + (SectionHeading(s.title) + s.fragment + SectionEnd) == SectionBlock(i, s);
    ContainsSelf(s.fragment);
    ContainsWithin(SectionAnchor(i) + SectionHeading(s.title), s.fragment, SectionEnd, s.fragment);
  }

  /**
   * The report has a section exactly for each notebook that exists and
   * renders to a non-empty fragment, headed by the notebook's title.
   */
  lemma SectionsKept(names: seq<string>, load: string -> Option<Notebook>, ids: string -> ((nat, nat) -> string), dumps: Json -> string, s: Section)
    requires Sections(names, load, ids, dumps).Some?
    ensures s in Sections(names, load, ids, dumps).value <==>
      exists k :: 0 <= k < |names| && load(names[k]).Some? && s.fragment != ""
        && Fragment(load(names[k]).value, ids(names[k]), dumps) == Some(s.fragment)
        && s.title == SectionTitle(names[k])
  {
    CollectMembership(SectionStep(load, ids, dumps), names, s);
  }

  /** The report fails exactly when one of the notebooks present fails to render. */
  lemma SectionsFail(names: seq<string>, load: string -> Option<Notebook>, ids: string -> ((nat, nat) -> string), dumps: Json -> string)
    ensures Sections(names, load, ids, dumps).None? <==>
      exists k :: 0 <= k < |names| && load(names[k]).Some? && Fragment(load(names[k]).value, ids(names[k]), dumps).None?
  {
    CollectFails(SectionStep(load, ids, dumps), names);
  }

  /** A notebook is skipped when it renders to nothing: its parts are none at all, or one empty part. */
  lemma EmptyFragmentSkipped(nb: Notebook, ids: (nat, nat) -> string, dumps: Json -> string)
    requires Collect(CellStep(ids, dumps), nb.cells).Some?
    ensures Fragment(nb, ids, dumps) == Some("") <==>
      var parts := Collect(CellStep(ids, dumps), nb.cells).value;
      parts == [] || parts == [""]
  {
    JoinEmpty(Collect(CellStep(ids, dumps), nb.cells).value, "\n");
  }
}
