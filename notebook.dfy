/**
 * `extract_outputs` of the report generator: the HTML fragment one executed
 * notebook turns into. Markdown cells are rewritten line by line; the
 * outputs of code cells become a Plotly chart, an HTML block, an image or a
 * text block; everything is joined with newlines.
 *
 * The notebook arrives already parsed. `json.dumps` and the random chart
 * identifiers are parameters: `dumps` renders a JSON value, `ids(c, o)` is the
 * 12-character token drawn for output `o` of cell `c`.
 */
module Notebook {
  import opened Wrappers
  import opened Text
  import opened Lists

  /** A JSON value; objects keep their keys in insertion order, as Python dicts do. */
  datatype Json =
    | JNull
    | JBool(b: bool)
    | JInt(i: int)
    | JFloat(x: real)
    | JStr(s: string)
    | JArr(items: seq<Json>)
    | JObj(fields: seq<(string, Json)>)

  /** The two entries of a Plotly figure the report reads; absent keys are `None`. */
  datatype Figure = Figure(data: Option<Json>, layout: Option<Json>)

  /** The MIME bundle of a rich output; multi-line values are kept as their list of chunks. */
  datatype MimeBundle = MimeBundle(plotly: Option<Figure>, html: Option<seq<string>>, png: Option<seq<string>>)

  /** `display_data` and `execute_result` outputs are handled alike and share `Rich`. */
  datatype Output = Rich(bundle: MimeBundle) | Stream(text: seq<string>) | OtherOutput

  datatype NotebookCell = Markdown(source: seq<string>) | Code(outputs: seq<Output>) | OtherCell

  /** A notebook without a `cells` entry has no cells. */
  datatype Notebook = Notebook(cells: seq<NotebookCell>)

  // ---------------------------------------------------------------------
  // Plotly layout defaults
  // ---------------------------------------------------------------------

  /** `d.setdefault(key, default)`: the key is added at the end only when it is missing. */
  function SetDefault(obj: seq<(string, Json)>, key: string, default: Json): seq<(string, Json)> {
    if Get(obj, key).Some? then obj else obj + [(key, default)]
  }

  /** A run of `setdefault` calls, in order. */
  function SetDefaults(obj: seq<(string, Json)>, defaults: seq<(string, Json)>): seq<(string, Json)>
    decreases |defaults|
  {
    if defaults == [] then obj
    else SetDefaults(SetDefault(obj, defaults[0].0, defaults[0].1), defaults[1..])
  }

  /** `setdefault` never overwrites: a present key keeps its value, a missing one takes the first default. */
  lemma {:induction false} SetDefaultsSpec(obj: seq<(string, Json)>, defaults: seq<(string, Json)>, key: string)
    ensures Get(SetDefaults(obj, defaults), key) == if Get(obj, key).Some? then Get(obj, key) else Get(defaults, key)
    ensures |SetDefaults(obj, defaults)| >= |obj| && SetDefaults(obj, defaults)[..|obj|] == obj
    decreases |defaults|
  {
    if defaults != [] {
      var (k, v) := defaults[0];
      GetAppend(obj, key, k, v);
      SetDefaultsSpec(SetDefault(obj, k, v), defaults[1..], key);
      var next := SetDefault(obj, k, v);
      assert next[..|obj|] == obj;
      assert SetDefaults(obj, defaults)[..|next|][..|obj|] == SetDefaults(obj, defaults)[..|obj|];
    }
  }

  /** Once every key has a value, the same defaults change nothing. */
  lemma {:induction false} SetDefaultsPresent(obj: seq<(string, Json)>, defaults: seq<(string, Json)>)
    requires forall i :: 0 <= i < |defaults| ==> Get(obj, defaults[i].0).Some?
    ensures SetDefaults(obj, defaults) == obj
    decreases |defaults|
  {
    if defaults != [] {
      assert Get(obj, defaults[0].0).Some?;
      assert forall i :: 0 <= i < |defaults[1..]| ==> defaults[1..][i] == defaults[i + 1];
      SetDefaultsPresent(obj, defaults[1..]);
    }
  }

  /** Every key of the defaults is present after they are applied. */
  lemma SetDefaultsCovers(obj: seq<(string, Json)>, defaults: seq<(string, Json)>)
    ensures forall i :: 0 <= i < |defaults| ==> Get(SetDefaults(obj, defaults), defaults[i].0).Some?
  {
    forall i | 0 <= i < |defaults|
      ensures Get(SetDefaults(obj, defaults), defaults[i].0).Some?
    {
      SetDefaultsSpec(obj, defaults, defaults[i].0);
      GetSpec(defaults, defaults[i].0);
    }
  }

  /** Applying the defaults twice is applying them once. */
  lemma SetDefaultsIdempotent(obj: seq<(string, Json)>, defaults: seq<(string, Json)>)
    ensures SetDefaults(SetDefaults(obj, defaults), defaults) == SetDefaults(obj, defaults)
  {
    SetDefaultsCovers(obj, defaults);
    SetDefaultsPresent(SetDefaults(obj, defaults), defaults);
  }

  const LayoutDefaults: seq<(string, Json)> := [("autosize", JBool(true)), ("margin", JObj([]))]
  const MarginDefaults: seq<(string, Json)> := [("l", JInt(10)), ("r", JInt(10)), ("t", JInt(40)), ("b", JInt(10))]

  /** The fields of the figure's layout: `{}` when absent, `None` when it is not an object (the source raises). */
  function LayoutFields(layout: Option<Json>): Option<seq<(string, Json)>> {
    match layout
    case None => Some([])
    case Some(JObj(fields)) => Some(fields)
    case Some(_) => None
  }

  /**
   * The mobile-friendly defaults merged into a layout: `autosize` and an
   * empty `margin` when missing, then the four margins when missing. `None`
   * where the source raises: a layout or a margin that is not an object.
   */
  function WithLayoutDefaults(layout: Option<Json>): Option<seq<(string, Json)>> {
    match LayoutFields(layout)
    case None => None
    case Some(fields) =>
      var l := SetDefaults(fields, LayoutDefaults);
      var margin := Get(l, "margin");
      if margin.Some? && margin.value.JObj? then
        Some(Put(l, "margin", JObj(SetDefaults(margin.value.fields, MarginDefaults))))
      else None
  }

  /** The caller's margins: `{}` when the layout has none. */
  function MarginFields(fields: seq<(string, Json)>): seq<(string, Json)> {
    var margin := Get(fields, "margin");
    if margin.Some? && margin.value.JObj? then margin.value.fields else []
  }

  /** The merge fails exactly when the layout, or the margin it already has, is not an object. */
  lemma WithLayoutDefaultsFails(layout: Option<Json>)
    ensures WithLayoutDefaults(layout).None? <==>
      LayoutFields(layout).None? || (Get(LayoutFields(layout).value, "margin").Some? && !Get(LayoutFields(layout).value, "margin").value.JObj?)
  {
    if LayoutFields(layout).Some? {
      SetDefaultsSpec(LayoutFields(layout).value, LayoutDefaults, "margin");
    }
  }

  /**
   * What the merged layout holds: the caller's `autosize` or `true`, the
   * caller's margins or 10/10/40/10, and every other key untouched.
   */
  lemma WithLayoutDefaultsKeeps(layout: Option<Json>, key: string)
    requires WithLayoutDefaults(layout).Some?
    ensures var fields := LayoutFields(layout).value;
      var r := WithLayoutDefaults(layout).value;
      && Get(r, "autosize") == Some(Get(fields, "autosize").GetOr(JBool(true)))
      && (key != "autosize" && key != "margin" ==> Get(r, key) == Get(fields, key))
      && Get(r, "margin").Some? && Get(r, "margin").value.JObj?
      && var m := MarginFields(fields);
         Get(Get(r, "margin").value.fields, key) == if Get(m, key).Some? then Get(m, key) else Get(MarginDefaults, key)
  {
    var fields := LayoutFields(layout).value;
    var l := SetDefaults(fields, LayoutDefaults);
    SetDefaultsSpec(fields, LayoutDefaults, "margin");
    SetDefaultsSpec(fields, LayoutDefaults, "autosize");
    SetDefaultsSpec(fields, LayoutDefaults, key);
    var m := Get(l, "margin").value.fields;
    PutSpec(l, "margin", JObj(SetDefaults(m, MarginDefaults)), "autosize");
    PutSpec(l, "margin", JObj(SetDefaults(m, MarginDefaults)), key);
    SetDefaultsSpec(m, MarginDefaults, key);
  }

  /** Merging into a layout that has already been merged changes nothing. */
  lemma WithLayoutDefaultsIdempotent(layout: Option<Json>)
    requires WithLayoutDefaults(layout).Some?
    ensures WithLayoutDefaults(Some(JObj(WithLayoutDefaults(layout).value))) == WithLayoutDefaults(layout)
  {
    var fields := LayoutFields(layout).value;
    var l := SetDefaults(fields, LayoutDefaults);
    var m := Get(l, "margin").value.fields;
    var m' := SetDefaults(m, MarginDefaults);
    var r := Put(l, "margin", JObj(m'));
    SetDefaultsCovers(fields, LayoutDefaults);
    PutSpec(l, "margin", JObj(m'), "autosize");
    PutSpec(l, "margin", JObj(m'), "margin");
    assert Get(r, LayoutDefaults[0].0).Some? && Get(r, LayoutDefaults[1].0).Some?;
    SetDefaultsPresent(r, LayoutDefaults);
    SetDefaultsCovers(m, MarginDefaults);
    SetDefaultsPresent(m', MarginDefaults);
    PutSame(r, "margin", JObj(m'));
  }

  // ---------------------------------------------------------------------
  // one output
  // ---------------------------------------------------------------------

  const PlotlyConfig := "{\"responsive\": true, \"displayModeBar\": false}"

  function PlotlyDiv(token: string, figData: string, figLayout: string): string {
    var divId := "plotly-" + token;
    "<div id=\"" + divId + "\" class=\"plotly-graph-div\" style=\"width:100%;\"></div>\n"
    + "<script type=\"text/javascript\">\n"
    + "Plotly.newPlot(\"" + divId + "\", " + figData + ", " + figLayout + ", " + PlotlyConfig + ");\n"
    + "</script>"
  }

  const TableWrapperOpen := "<div class=\"table-wrapper\">"
  const OutputHtmlOpen := "<div class=\"output-html\">"

  /** HTML output; tables get a scrollable wrapper. */
  function HtmlDiv(content: string): string {
    if Contains(content, "<table") then TableWrapperOpen + content + "</div>"
    else OutputHtmlOpen + content + "</div>"
  }

  /** An inline PNG: the base64 payload, stripped, in a data URI. */
  function ImageDiv(payload: string): string {
    "<div class=\"output-image\"><img src=\"data:image/png;base64," + payload + "\"></div>"
  }

  function PreBlock(text: string): string {
    "<pre class=\"output-text\">" + text + "</pre>"
  }

  /**
   * The parts one output adds: none, or one. A rich output shows its Plotly
   * figure if it has one, else its HTML, else its PNG; a stream shows its
   * text unless that is blank. `None` where the source raises.
   */
  function OutputPart(o: Output, token: string, dumps: Json -> string): Option<seq<string>> {
    match o
    case Rich(b) =>
      if b.plotly.Some? then
        match WithLayoutDefaults(b.plotly.value.layout)
        case None => None
        case Some(layout) => Some([PlotlyDiv(token, dumps(b.plotly.value.data.GetOr(JArr([]))), dumps(JObj(layout)))])
      else if b.html.Some? then Some([HtmlDiv(Concat(b.html.value))])
      else if b.png.Some? then Some([ImageDiv(Strip(Concat(b.png.value)))])
      else Some([])
    case Stream(chunks) =>
      var text := Concat(chunks);
      if Strip(text) != [] then Some([PreBlock(text)]) else Some([])
    case OtherOutput => Some([])
  }

  /** An output fails exactly when it is a Plotly figure whose layout cannot take the defaults. */
  predicate BadFigure(o: Output) {
    o.Rich? && o.bundle.plotly.Some? && WithLayoutDefaults(o.bundle.plotly.value.layout).None?
  }

  lemma OutputPartFails(o: Output, token: string, dumps: Json -> string)
    ensures OutputPart(o, token, dumps).None? <==> BadFigure(o)
    ensures OutputPart(o, token, dumps).Some? ==> |OutputPart(o, token, dumps).value| <= 1
  {
  }

  /**
   * The order of precedence in a rich output: a Plotly figure hides any HTML
   * or PNG beside it, HTML hides a PNG, and a bundle with none of the three
   * shows nothing.
   */
  lemma OutputPrecedence(f: Figure, html: Option<seq<string>>, png: Option<seq<string>>, token: string, dumps: Json -> string)
    ensures OutputPart(Rich(MimeBundle(Some(f), html, png)), token, dumps) == OutputPart(Rich(MimeBundle(Some(f), None, None)), token, dumps)
    ensures html.Some? ==> OutputPart(Rich(MimeBundle(None, html, png)), token, dumps) == OutputPart(Rich(MimeBundle(None, html, None)), token, dumps)
    ensures OutputPart(Rich(MimeBundle(None, None, None)), token, dumps) == Some([])
  {
  }

  /** The table wrapper is chosen exactly for HTML that holds a `<table` tag, and the HTML is kept whole. */
  lemma HtmlDivWrapsTables(content: string)
    ensures StartsWith(HtmlDiv(content), TableWrapperOpen) <==> Contains(content, "<table")
    ensures Contains(HtmlDiv(content), content)
  {
    ContainsSelf(content);
    if Contains(content, "<table") {
      ContainsWithin(TableWrapperOpen, content, "</div>", content);
    } else {
      ContainsWithin(OutputHtmlOpen, content, "</div>", content);
      assert HtmlDiv(content)[12] == 'o';
    }
  }

  /** A stream shows up exactly when its text is not all whitespace, and then verbatim. */
  lemma StreamShown(chunks: seq<string>, token: string, dumps: Json -> string)
    ensures OutputPart(Stream(chunks), token, dumps) ==
      if AllSpace(Concat(chunks)) then Some([]) else Some([PreBlock(Concat(chunks))])
  {
    StripEmptyIffAllSpace(Concat(chunks));
  }

  // ---------------------------------------------------------------------
  // markdown
  // ---------------------------------------------------------------------

  /** `line[2:-2]`: the text between the asterisks, empty when they overlap. */
  function BoldText(line: string): string {
    if |line| >= 4 then line[2..|line| - 2] else ""
  }

  /** The HTML for one markdown line; blank lines give nothing. */
  function LineHtml(line: string): Option<string> {
    if StartsWith(line, "### ") then Some("<h4>" + line[4..] + "</h4>")
    else if StartsWith(line, "## ") then Some("<h3>" + line[3..] + "</h3>")
    else if StartsWith(line, "# ") then Some("<h3>" + line[2..] + "</h3>")
    else if StartsWith(line, "**") && EndsWith(line, "**") then Some("<p><strong>" + BoldText(line) + "</strong></p>")
    else if StartsWith(line, "- ") then Some("<li>" + line[2..] + "</li>")
    else if Strip(line) != [] then Some("<p>" + line + "</p>")
    else None
  }

  /** A line is dropped exactly when it is blank. */
  lemma LineHtmlDropsBlank(line: string)
    ensures LineHtml(line).None? <==> AllSpace(line)
  {
    StripEmptyIffAllSpace(line);
    if AllSpace(line) && |line| > 0 {
      BlankIsNoMarkup(line);
    }
  }

  /** A line that starts with whitespace starts with none of the markers. */
  lemma BlankIsNoMarkup(line: string)
    requires |line| > 0 && IsSpace(line[0])
    ensures !StartsWith(line, "### ") && !StartsWith(line, "## ") && !StartsWith(line, "# ")
    ensures !StartsWith(line, "**") && !StartsWith(line, "- ")
  {
    assert !IsSpace('#') && !IsSpace('*') && !IsSpace('-');
    if |line| >= 2 {
      assert line[..2][0] == line[0];
    }
    if |line| >= 3 {
      assert line[..3][0] == line[0];
    }
    if |line| >= 4 {
      assert line[..4][0] == line[0];
    }
  }

  /** The markup each kind of line is written in, recovered from the line's text. */
  lemma LineHtmlHeadings(t: string)
    ensures LineHtml("### " + t) == Some("<h4>" + t + "</h4>")
    ensures LineHtml("## " + t) == Some("<h3>" + t + "</h3>")
    ensures LineHtml("# " + t) == Some("<h3>" + t + "</h3>")
  {
    assert ("### " + t)[..4] == "### " && ("### " + t)[4..] == t;
    assert ("## " + t)[..3] == "## " && ("## " + t)[3..] == t;
    assert ("## " + t)[2] != ("### ")[2];
    assert ("# " + t)[..2] == "# " && ("# " + t)[2..] == t;
    assert ("# " + t)[1] != ("### ")[1] && ("# " + t)[1] != ("## ")[1];
  }

  /** A line wrapped in `**` is bold text, whatever it holds. */
  lemma LineHtmlBold(t: string)
    ensures LineHtml("**" + t + "**") == Some("<p><strong>" + t + "</strong></p>")
  {
    var b := "**" + t + "**";
    assert b[..2] == "**" && b[|b| - 2..] == "**" && b[2..|b| - 2] == t;
    assert b[0] != '#';
  }

  lemma LineHtmlListItem(t: string)
    ensures LineHtml("- " + t) == Some("<li>" + t + "</li>")
  {
    var li := "- " + t;
    assert li[..2] == "- " && li[2..] == t;
    assert li[0] != '#' && li[0] != '*';
  }

  /** Any other line becomes a paragraph, unless it is blank. */
  lemma LineHtmlParagraph(line: string)
    requires !StartsWith(line, "### ") && !StartsWith(line, "## ") && !StartsWith(line, "# ")
    requires !(StartsWith(line, "**") && EndsWith(line, "**")) && !StartsWith(line, "- ")
    ensures LineHtml(line) == if AllSpace(line) then None else Some("<p>" + line + "</p>")
  {
    StripEmptyIffAllSpace(line);
  }

  /** `**` and `***` are both bold markers around nothing. */
  lemma LineHtmlShortBold()
    ensures LineHtml("**") == Some("<p><strong></strong></p>")
    ensures LineHtml("***") == Some("<p><strong></strong></p>")
  {
    assert "**"[..2] == "**" && "**"[0..] == "**";
    assert "<p><strong>" + "" + "</strong></p>" == "<p><strong></strong></p>";
    assert "***"[..2] == "**" && "***"[1..] == "**";
  }

  /** The HTML of a markdown cell: its source joined, split into lines, rewritten, blank lines dropped. */
  function MarkdownHtml(source: seq<string>): string {
    Join(FilterMap(LineHtml, Split(Concat(source), '\n')), "\n")
  }

  method RenderMarkdown(source: seq<string>) returns (html: string)
    ensures html == MarkdownHtml(source)
  {
    var lines := Split(Concat(source), '\n');
    var htmlLines: seq<string> := [];
    for i := 0 to |lines|
      invariant htmlLines == FilterMap(LineHtml, lines[..i])
    {
      FilterMapSnoc(LineHtml, lines, i);
      var h := LineHtml(lines[i]);
      if h.Some? {
        htmlLines := htmlLines + [h.value];
      }
    }
    assert lines[..|lines|] == lines;
    html := Join(htmlLines, "\n");
  }

  /** No rewritten line holds a newline, so the cell's HTML splits back into exactly those lines. */
  lemma MarkdownHtmlLines(source: seq<string>)
    requires FilterMap(LineHtml, Split(Concat(source), '\n')) != []
    ensures Split(MarkdownHtml(source), '\n') == FilterMap(LineHtml, Split(Concat(source), '\n'))
  {
    var lines := Split(Concat(source), '\n');
    var out := FilterMap(LineHtml, lines);
    forall k | 0 <= k < |out| ensures '\n' !in out[k] {
      FilterMapMembership(LineHtml, lines, out[k]);
      var j :| 0 <= j < |lines| && LineHtml(lines[j]) == Some(out[k]);
      LineHtmlNoNewline(lines[j]);
    }
    SplitJoin(out, '\n');
  }

  lemma LineHtmlNoNewline(line: string)
    requires '\n' !in line
    ensures LineHtml(line).Some? ==> '\n' !in LineHtml(line).value
  {
    var nl := '\n';
    if StartsWith(line, "### ") {
      SliceKeeps(line, 4, |line|, nl);
      Wrapped("<h4>", line[4..], "</h4>", nl);
    } else if StartsWith(line, "## ") {
      SliceKeeps(line, 3, |line|, nl);
      Wrapped("<h3>", line[3..], "</h3>", nl);
    } else if StartsWith(line, "# ") {
      SliceKeeps(line, 2, |line|, nl);
      Wrapped("<h3>", line[2..], "</h3>", nl);
    } else if StartsWith(line, "**") && EndsWith(line, "**") {
      if |line| >= 4 {
        SliceKeeps(line, 2, |line| - 2, nl);
      }
      Wrapped("<p><strong>", BoldText(line), "</strong></p>", nl);
    } else if StartsWith(line, "- ") {
      SliceKeeps(line, 2, |line|, nl);
      Wrapped("<li>", line[2..], "</li>", nl);
    } else {
      Wrapped("<p>", line, "</p>", nl);
    }
  }

  lemma Wrapped(open: string, t: string, close: string, c: char)
    requires c !in open && c !in t && c !in close
    ensures c !in open + t + close
  {
  }

  lemma SliceKeeps(s: string, i: nat, j: nat, c: char)
    requires i <= j <= |s| && c !in s
    ensures c !in s[i..j]
  {
  }

  // ---------------------------------------------------------------------
  // the whole notebook
  // ---------------------------------------------------------------------

  /** The parts of the outputs of code cell `c`, in order. */
  function OutputStep(c: nat, ids: (nat, nat) -> string, dumps: Json -> string): (nat, Output) -> Option<seq<string>> {
    (o: nat, out: Output) => OutputPart(out, ids(c, o), dumps)
  }

  /** The parts one cell adds: one for a markdown cell, one per shown output for a code cell. */
  function CellParts(c: nat, cell: NotebookCell, ids: (nat, nat) -> string, dumps: Json -> string): Option<seq<string>> {
    match cell
    case Markdown(source) => Some([MarkdownHtml(source)])
    case Code(outputs) => Collect(OutputStep(c, ids, dumps), outputs)
    case OtherCell => Some([])
  }

  function CellStep(ids: (nat, nat) -> string, dumps: Json -> string): (nat, NotebookCell) -> Option<seq<string>> {
    (c: nat, cell: NotebookCell) => CellParts(c, cell, ids, dumps)
  }

  /** The fragment of a notebook: all its parts joined with newlines, or `None` where the source raises. */
  function Fragment(nb: Notebook, ids: (nat, nat) -> string, dumps: Json -> string): Option<string> {
    match Collect(CellStep(ids, dumps), nb.cells)
    case None => None
    case Some(parts) => Some(Join(parts, "\n"))
  }

  /** The inner loop of the source over one code cell's outputs. */
  method CodeCellParts(c: nat, outputs: seq<Output>, ids: (nat, nat) -> string, dumps: Json -> string) returns (parts: Option<seq<string>>)
    ensures parts == Collect(OutputStep(c, ids, dumps), outputs)
  {
    var acc: seq<string> := [];
    for o := 0 to |outputs|
      invariant Collect(OutputStep(c, ids, dumps), outputs[..o]) == Some(acc)
    {
      CollectStep(OutputStep(c, ids, dumps), outputs, o);
      var part := OutputPart(outputs[o], ids(c, o), dumps);
      assert OutputStep(c, ids, dumps)(o, outputs[o]) == part;
      if part.None? {
        CollectFails(OutputStep(c, ids, dumps), outputs[..o + 1]);
        CollectFails(OutputStep(c, ids, dumps), outputs);
        return None;
      }
      acc := acc + part.value;
    }
    assert outputs[..|outputs|] == outputs;
    parts := Some(acc);
  }

  method ExtractOutputs(nb: Notebook, ids: (nat, nat) -> string, dumps: Json -> string) returns (fragment: Option<string>)
    ensures fragment == Fragment(nb, ids, dumps)
  {
    var cells := nb.cells;
    var parts: seq<string> := [];
    for c := 0 to |cells|
      invariant Collect(CellStep(ids, dumps), cells[..c]) == Some(parts)
    {
      CollectStep(CellStep(ids, dumps), cells, c);
      match cells[c]
      case Markdown(source) =>
        var html := RenderMarkdown(source);
        assert CellStep(ids, dumps)(c, cells[c]) == Some([html]);
        parts := parts + [html];
      case Code(outputs) =>
        var cellParts := CodeCellParts(c, outputs, ids, dumps);
        assert CellStep(ids, dumps)(c, cells[c]) == cellParts;
        if cellParts.None? {
          CollectFails(CellStep(ids, dumps), cells[..c + 1]);
          CollectFails(CellStep(ids, dumps), cells);
          return None;
        }
        parts := parts + cellParts.value;
      case OtherCell =>
        assert CellStep(ids, dumps)(c, cells[c]) == Some([]);
        assert parts + [] == parts;
    }
    assert cells[..|cells|] == cells;
    fragment := Some(Join(parts, "\n"));
  }

  /** A notebook fails exactly when one of its code cells has a Plotly figure with an unusable layout. */
  lemma FragmentFails(nb: Notebook, ids: (nat, nat) -> string, dumps: Json -> string)
    ensures Fragment(nb, ids, dumps).None? <==>
      exists c, o :: 0 <= c < |nb.cells| && nb.cells[c].Code? && 0 <= o < |nb.cells[c].outputs| && BadFigure(nb.cells[c].outputs[o])
  {
    CollectFails(CellStep(ids, dumps), nb.cells);
    forall c | 0 <= c < |nb.cells| && nb.cells[c].Code?
      ensures CellParts(c, nb.cells[c], ids, dumps).None? <==>
        exists o :: 0 <= o < |nb.cells[c].outputs| && BadFigure(nb.cells[c].outputs[o])
    {
      var outputs := nb.cells[c].outputs;
      CollectFails(OutputStep(c, ids, dumps), outputs);
      forall o | 0 <= o < |outputs|
        ensures OutputStep(c, ids, dumps)(o, outputs[o]).None? <==> BadFigure(outputs[o])
      {
        OutputPartFails(outputs[o], ids(c, o), dumps);
      }
    }
  }

  /** A non-blank stream output of a code cell appears verbatim in the fragment. */
  lemma FragmentShowsStream(nb: Notebook, ids: (nat, nat) -> string, dumps: Json -> string, c: nat, o: nat)
    requires Fragment(nb, ids, dumps).Some?
    requires c < |nb.cells| && nb.cells[c].Code? && o < |nb.cells[c].outputs|
    requires nb.cells[c].outputs[o].Stream? && !AllSpace(Concat(nb.cells[c].outputs[o].text))
    ensures Contains(Fragment(nb, ids, dumps).value, Concat(nb.cells[c].outputs[o].text))
  {
    var outputs := nb.cells[c].outputs;
    var text := Concat(outputs[o].text);
    var block := PreBlock(text);
    StreamShown(outputs[o].text, ids(c, o), dumps);
    CollectFails(CellStep(ids, dumps), nb.cells);
    CollectMembership(OutputStep(c, ids, dumps), outputs, block);
    var all := Collect(CellStep(ids, dumps), nb.cells).value;
    CollectMembership(CellStep(ids, dumps), nb.cells, block);
    var k :| 0 <= k < |all| && all[k] == block;
    JoinContains(all, "\n", k);
    ContainsSelf(text);
    ContainsWithin("<pre class=\"output-text\">", text, "</pre>", text);
    ContainsTransitive(Join(all, "\n"), block, text);
  }

  /** A markdown cell with no source renders to the empty string. */
  lemma BlankMarkdownHtml()
    ensures MarkdownHtml([]) == ""
  {
    assert Split(Concat([]), '\n') == [""];
    LineHtmlDropsBlank("");
    assert FilterMap(LineHtml, [""]) == [];
  }

  /** Two blank markdown cells each contribute one empty part. */
  lemma BlankCellsCollect(ids: (nat, nat) -> string, dumps: Json -> string)
    ensures Collect(CellStep(ids, dumps), [Markdown([]), Markdown([])]) == Some(["", ""])
  {
    BlankMarkdownHtml();
    var step := CellStep(ids, dumps);
    var cell := Markdown([]);
    assert step(0, cell) == Some([""]);
    assert step(1, cell) == Some([""]);
    var none: seq<string> := [];
    var two := [cell, cell];
    assert two[..0] == [] && two[..2] == two;
    assert two[0] == cell && two[1] == cell;
    CollectStep(step, two, 0);
    assert Collect(step, two[..0]) == Some(none);
    assert Collect(step, two[..1]) == Some(none + [""]);
    CollectStep(step, two, 1);
    assert Collect(step, two[..2]) == Some((none + [""]) + [""]);
    assert (none + [""]) + [""] == ["", ""];
  }

  /**
   * Every markdown cell adds a part even when it renders to nothing, so two
   * blank markdown cells give the fragment "\n", which is not empty.
   */
  lemma BlankMarkdownCells(ids: (nat, nat) -> string, dumps: Json -> string)
    ensures Fragment(Notebook([Markdown([]), Markdown([])]), ids, dumps) == Some("\n")
  {
    BlankCellsCollect(ids, dumps);
    assert Join(["", ""], "\n") == "" + "\n" + "" == "\n";
  }
}
