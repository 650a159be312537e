/**
 What rendering preserves: values may be put into the document before rendering or while rendering, and
 the text comes out in order; each with the exact documents it holds for.
 */
module EmailMeaning {
  import opened Options
  import opened EmailRenderer

  /** No values to put in, and variables shown as they are written. */
  const PLAIN := Config(false, map[], map[])

  /******* Documents with the values put in *******/

  /** What a variable is to read as: when values are put in, its own or else its fallback; else its placeholder. */
  function Stands(id: string, fallback: string, replace: bool, variables: map<string, string>): (text: string)
    ensures text != ""
  {
    if replace && id in variables && variables[id] != "" then variables[id]
    else if replace && fallback != "" then fallback
    else if fallback == "" then "{{" + id + "}}"
    else "{{" + id + ",fallback=" + fallback + "}}"
  }

  /** Where a link is to lead: to the value filed under its target among the links, or else the variables, if any. */
  function LeadsTo(url: string, links: map<string, string>, variables: map<string, string>): string {
    if url in links && links[url] != "" then links[url]
    else if url in variables && variables[url] != "" then variables[url]
    else url
  }

  lemma StandsFor(id: string, fallback: string, cfg: Config)
    ensures VariableText(id, fallback, cfg) == Stands(id, fallback, cfg.replace, cfg.variables)
  {
  }

  lemma HrefLeads(url: string, cfg: Config)
    ensures Href(url, cfg) == LeadsTo(url, cfg.links, cfg.variables)
  {
  }

  /** Replaces each variable by unmarked text; with links, also maps every link's and button's target. */
  function Fill(node: Node, cfg: Config, links: bool): Node
    decreases node
  {
    match node
    case Text(text, Some(marks)) => if links then Text(text, Some(FillMarks(marks, cfg))) else node
    case Variable(id, fallback) => Text(Stands(id, fallback, cfg.replace, cfg.variables), None)
    case Paragraph(content) => Paragraph(FillAll(content, cfg, links))
    case Heading(level, content) => Heading(level, FillAll(content, cfg, links))
    case Block(kind, content) => Block(kind, FillAll(content, cfg, links))
    case ListItem(content) => ListItem(FillAll(content, cfg, links))
    case CodeBlock(content) => CodeBlock(FillAll(content, cfg, links))
    case Button(caption, url) => if links then Button(caption, LeadsTo(url, cfg.links, cfg.variables)) else node
    case _ => node
  }

  function FillAll(nodes: seq<Node>, cfg: Config, links: bool): seq<Node>
    decreases nodes
  {
    if nodes == [] then [] else [Fill(nodes[0], cfg, links)] + FillAll(nodes[1..], cfg, links)
  }

  function FillMarks(marks: seq<Mark>, cfg: Config): seq<Mark> {
    if marks == [] then []
    else
      var first :=
        match marks[0]
        case Link(href) => Link(LeadsTo(if href == "" then "#" else href, cfg.links, cfg.variables))
        case mark => mark;
      [first] + FillMarks(marks[1..], cfg)
  }

  /** No code block on the way has a variable among its children. */
  predicate NoVariableInCode(node: Node)
    decreases node
  {
    match node
    case Paragraph(content) => NoneInCode(content)
    case Heading(_, content) => NoneInCode(content)
    case Block(_, content) => NoneInCode(content)
    case ListItem(content) => NoneInCode(content)
    case CodeBlock(content) => forall i :: 0 <= i < |content| ==> !content[i].Variable?
    case _ => true
  }

  predicate NoneInCode(nodes: seq<Node>)
    decreases nodes
  {
    nodes == [] || (NoVariableInCode(nodes[0]) && NoneInCode(nodes[1..]))
  }

  lemma {:induction false} FilledMarks(marks: seq<Mark>, inner: Html, cfg: Config)
    ensures RenderMarks(FillMarks(marks, cfg), inner, PLAIN) == RenderMarks(marks, inner, cfg)
    decreases marks
  {
    if marks != [] && !marks[0].UnknownMark? {
      var first := FillMarks(marks, cfg)[0];
      assert FillMarks(marks, cfg)[1..] == FillMarks(marks[1..], cfg);
      assert RenderMark(first, inner, PLAIN) == RenderMark(marks[0], inner, cfg);
      FilledMarks(marks[1..], RenderMark(marks[0], inner, cfg), cfg);
    }
  }

  lemma {:induction false} FilledCode(content: seq<Node>, cfg: Config, links: bool)
    ensures |CodeText(content)| <= |CodeText(FillAll(content, cfg, links))|
    ensures CodeText(FillAll(content, cfg, links)) == CodeText(content) <==>
              forall i :: 0 <= i < |content| ==> !content[i].Variable?
    decreases content
  {
    if content != [] {
      FilledCode(content[1..], cfg, links);
      var filled := FillAll(content, cfg, links);
      assert filled[0] == Fill(content[0], cfg, links) && filled[1..] == FillAll(content[1..], cfg, links);
      assert (forall i :: 0 <= i < |content| ==> !content[i].Variable?) <==>
             !content[0].Variable? && forall i :: 0 <= i < |content[1..]| ==> !content[1..][i].Variable? by {
        assert content == [content[0]] + content[1..];
      }
      if content[0].Variable? {
        assert |CodeText(filled)| > |CodeText(content)|;
      } else {
        var own := if content[0].Text? then content[0].text else "";
        var x, y := CodeText(filled[1..]), CodeText(content[1..]);
        assert CodeText(filled) == own + x && CodeText(content) == own + y;
        assert (own + x)[|own|..] == x && (own + y)[|own|..] == y;
      }
    }
  }

  /** One node, its values put in first: the same markup just when no code block hides a variable. */
  lemma {:induction false} FilledNode(node: Node, at: Context, cfg: Config)
    requires Supported(node)
    ensures RenderNode(Fill(node, cfg, true), at, PLAIN) == RenderNode(node, at, cfg) <==> NoVariableInCode(node)
    ensures Supported(Fill(node, cfg, true))
    decreases node
  {
    match node
    case Text(text, marks) =>
      if marks.Some? {
        var inner := if text == "" then NonBreakingSpace else Words(text);
        FilledMarks(marks.value, inner, cfg);
        MarksRender(marks.value, inner, cfg);
        MarksRender(FillMarks(marks.value, cfg), inner, PLAIN);
      }
    case Paragraph(content) => FilledAll(content, NO_CONTEXT, cfg);
    case Heading(_, content) => FilledAll(content, NO_CONTEXT, cfg);
    case Block(_, content) => FilledAll(content, NO_CONTEXT, cfg);
    case ListItem(content) => FilledAll(content, at.(inItem := true), cfg);
    case CodeBlock(content) => FilledCode(content, cfg, true);
    case _ =>
  }

  lemma {:induction false} FilledAll(nodes: seq<Node>, at: Context, cfg: Config)
    requires AllSupported(nodes)
    ensures AllSupported(FillAll(nodes, cfg, true))
    ensures RenderAll(nodes, at, cfg).Done? && RenderAll(FillAll(nodes, cfg, true), at, PLAIN).Done?
    ensures RenderAll(FillAll(nodes, cfg, true), at, PLAIN) == RenderAll(nodes, at, cfg) <==> NoneInCode(nodes)
    decreases nodes
  {
    AllRender(nodes, at, cfg);
    if nodes != [] {
      FilledNode(nodes[0], at, cfg);
      FilledAll(nodes[1..], at, cfg);
      var filled := FillAll(nodes, cfg, true);
      assert filled[0] == Fill(nodes[0], cfg, true) && filled[1..] == FillAll(nodes[1..], cfg, true);
      AllRender(filled, at, PLAIN);
      var a, b := RenderAll(filled, at, PLAIN).value, RenderAll(nodes, at, cfg).value;
      assert a[0] == RenderNode(filled[0], at, PLAIN).value && a[1..] == RenderAll(filled[1..], at, PLAIN).value;
      assert b[0] == RenderNode(nodes[0], at, cfg).value && b[1..] == RenderAll(nodes[1..], at, cfg).value;
      assert a == b <==> a[0] == b[0] && a[1..] == b[1..];
    }
  }

  lemma {:induction false} FillAllIs(nodes: seq<Node>, cfg: Config, links: bool)
    ensures |FillAll(nodes, cfg, links)| == |nodes|
    ensures forall i :: 0 <= i < |nodes| ==> FillAll(nodes, cfg, links)[i] == Fill(nodes[i], cfg, links)
    decreases nodes
  {
    if nodes != [] {
      FillAllIs(nodes[1..], cfg, links);
    }
  }

  /** Neighbours stay spacers or not, so every node is rendered in the same context. */
  lemma SameContext(nodes: seq<Node>, i: nat, cfg: Config, links: bool)
    requires i < |nodes| && |FillAll(nodes, cfg, links)| == |nodes|
    ensures TopContext(FillAll(nodes, cfg, links), i) == TopContext(nodes, i)
  {
    FillAllIs(nodes, cfg, links);
  }

  lemma {:induction false} FilledTop(nodes: seq<Node>, i: nat, cfg: Config)
    requires i <= |nodes| && AllSupported(nodes[i..]) && |FillAll(nodes, cfg, true)| == |nodes|
    ensures RenderTop(nodes, i, cfg).Done? && RenderTop(FillAll(nodes, cfg, true), i, PLAIN).Done?
    ensures RenderTop(FillAll(nodes, cfg, true), i, PLAIN) == RenderTop(nodes, i, cfg) <==> NoneInCode(nodes[i..])
    decreases |nodes| - i
  {
    if i < |nodes| {
      var filled := FillAll(nodes, cfg, true);
      FillAllIs(nodes, cfg, true);
      SameContext(nodes, i, cfg, true);
      assert nodes[i..][1..] == nodes[i + 1..];
      var at := TopContext(nodes, i);
      FilledNode(nodes[i], at, cfg);
      NodeRenders(nodes[i], at, cfg);
      NodeRenders(filled[i], at, PLAIN);
      FilledTop(nodes, i + 1, cfg);
      var a, b := RenderTop(filled, i, PLAIN).value, RenderTop(nodes, i, cfg).value;
      assert a[0] == RenderNode(filled[i], at, PLAIN).value && a[1..] == RenderTop(filled, i + 1, PLAIN).value;
      assert b[0] == RenderNode(nodes[i], at, cfg).value && b[1..] == RenderTop(nodes, i + 1, cfg).value;
      assert a == b <==> a[0] == b[0] && a[1..] == b[1..];
    }
  }

  /**
   Rendering with values is rendering, without any, the document with variables, links and buttons already
   filled in: for a supported document just when no code block hides a variable. Any other throws both ways.
   */
  lemma RenderFilled(nodes: seq<Node>, cfg: Config)
    ensures AllSupported(nodes) ==>
              (RenderDocument(FillAll(nodes, cfg, true), PLAIN) == RenderDocument(nodes, cfg) <==> NoneInCode(nodes))
    ensures !AllSupported(nodes) ==>
              RenderDocument(nodes, cfg).Threw? && RenderDocument(FillAll(nodes, cfg, true), PLAIN).Threw?
  {
    assert nodes[0..] == nodes;
    FillAllIs(nodes, cfg, true);
    if AllSupported(nodes) {
      FilledTop(nodes, 0, cfg);
    } else {
      FillKeepsSupport(nodes, cfg, true);
      RendersWhenSupported(nodes, cfg);
      RendersWhenSupported(FillAll(nodes, cfg, true), PLAIN);
    }
  }

  lemma {:induction false} FillMarksKeepsSupport(marks: seq<Mark>, cfg: Config)
    ensures MarksFit(FillMarks(marks, cfg)) <==> MarksFit(marks)
    decreases marks
  {
    if marks != [] {
      FillMarksKeepsSupport(marks[1..], cfg);
      var filled := FillMarks(marks, cfg);
      assert marks == [marks[0]] + marks[1..] && filled == [filled[0]] + filled[1..];
      assert filled[1..] == FillMarks(marks[1..], cfg);
      assert MarksFit(marks) <==> !marks[0].UnknownMark? && MarksFit(marks[1..]);
      assert MarksFit(filled) <==> !filled[0].UnknownMark? && MarksFit(filled[1..]);
    }
  }

  lemma {:induction false} FillNodeKeepsSupport(node: Node, cfg: Config, links: bool)
    ensures Supported(Fill(node, cfg, links)) <==> Supported(node)
    decreases node
  {
    match node
    case Text(_, marks) =>
      if marks.Some? {
        FillMarksKeepsSupport(marks.value, cfg);
      }
    case Paragraph(content) => FillKeepsSupport(content, cfg, links);
    case Heading(_, content) => FillKeepsSupport(content, cfg, links);
    case Block(_, content) => FillKeepsSupport(content, cfg, links);
    case ListItem(content) => FillKeepsSupport(content, cfg, links);
    case _ =>
  }

  lemma {:induction false} FillKeepsSupport(nodes: seq<Node>, cfg: Config, links: bool)
    ensures AllSupported(FillAll(nodes, cfg, links)) <==> AllSupported(nodes)
    decreases nodes
  {
    if nodes != [] {
      FillNodeKeepsSupport(nodes[0], cfg, links);
      FillKeepsSupport(nodes[1..], cfg, links);
    }
  }

  /******* Variables alone *******/

  lemma {:induction false} FillTwice(node: Node, cfg: Config)
    ensures Fill(Fill(node, cfg, false), cfg, true) == Fill(node, cfg, true)
    ensures NoVariableInCode(Fill(node, cfg, false))
    decreases node
  {
    match node
    case Paragraph(content) => FillAllTwice(content, cfg);
    case Heading(_, content) => FillAllTwice(content, cfg);
    case Block(_, content) => FillAllTwice(content, cfg);
    case ListItem(content) => FillAllTwice(content, cfg);
    case CodeBlock(content) =>
      FillAllTwice(content, cfg);
      FillAllIs(content, cfg, false);
    case _ =>
  }

  lemma {:induction false} FillAllTwice(nodes: seq<Node>, cfg: Config)
    ensures FillAll(FillAll(nodes, cfg, false), cfg, true) == FillAll(nodes, cfg, true)
    ensures NoneInCode(FillAll(nodes, cfg, false))
    decreases nodes
  {
    if nodes != [] {
      FillTwice(nodes[0], cfg);
      FillAllTwice(nodes[1..], cfg);
    }
  }

  /**
   Rendering commutes with replacing variables by unmarked text, in the same configuration: for every
   supported document just when no code block has a variable among its children.
   */
  lemma RenderCommutes(nodes: seq<Node>, cfg: Config)
    ensures AllSupported(nodes) ==>
              (RenderDocument(FillAll(nodes, cfg, false), cfg) == RenderDocument(nodes, cfg) <==> NoneInCode(nodes))
    ensures !AllSupported(nodes) ==>
              RenderDocument(FillAll(nodes, cfg, false), cfg) == RenderDocument(nodes, cfg) == Threw
  {
    FillAllTwice(nodes, cfg);
    FillKeepsSupport(nodes, cfg, false);
    RenderFilled(nodes, cfg);
    RenderFilled(FillAll(nodes, cfg, false), cfg);
    RendersWhenSupported(nodes, cfg);
    RendersWhenSupported(FillAll(nodes, cfg, false), cfg);
  }

  /******* Text *******/

  /** The text a reader sees, in order; spaces that only hold a place are not text. */
  function HtmlText(html: Html): string
    decreases html
  {
    match html
    case Words(text) => text
    case Marked(_, inner) => HtmlText(inner)
    case Hyperlink(_, inner) => HtmlText(inner)
    case Element(_, _, _, children) => HtmlAllText(children)
    case Code(code) => code
    case Anchor(caption, _, _) => caption
    case _ => ""
  }

  function HtmlAllText(nodes: seq<Html>): string
    decreases nodes
  {
    if nodes == [] then "" else HtmlText(nodes[0]) + HtmlAllText(nodes[1..])
  }

  /** The text of the document itself, variables as they will be shown. */
  function SourceText(node: Node, cfg: Config): string
    decreases node
  {
    match node
    case Text(text, _) => text
    case Variable(id, fallback) => Stands(id, fallback, cfg.replace, cfg.variables)
    case Paragraph(content) => AllSourceText(content, cfg)
    case Heading(_, content) => AllSourceText(content, cfg)
    case Block(_, content) => AllSourceText(content, cfg)
    case ListItem(content) => AllSourceText(content, cfg)
    case CodeBlock(content) => AllSourceText(content, cfg)
    case Button(caption, _) => caption
    case _ => ""
  }

  function AllSourceText(nodes: seq<Node>, cfg: Config): string
    decreases nodes
  {
    if nodes == [] then "" else SourceText(nodes[0], cfg) + AllSourceText(nodes[1..], cfg)
  }

  /** A node that stands for no text at all. */
  predicate Silent(node: Node)
    decreases node
  {
    match node
    case Text(text, _) => text == ""
    case Variable(_, _) => false
    case Paragraph(content) => AllSilent(content)
    case Heading(_, content) => AllSilent(content)
    case Block(_, content) => AllSilent(content)
    case ListItem(content) => AllSilent(content)
    case CodeBlock(content) => AllSilent(content)
    case Button(caption, _) => caption == ""
    case _ => true
  }

  predicate AllSilent(nodes: seq<Node>)
    decreases nodes
  {
    nodes == [] || (Silent(nodes[0]) && AllSilent(nodes[1..]))
  }

  /** Code blocks hold nothing but text, as in the editor's schema, and nodes without any. */
  predicate PlainCode(node: Node)
    decreases node
  {
    match node
    case Paragraph(content) => AllPlainCode(content)
    case Heading(_, content) => AllPlainCode(content)
    case Block(_, content) => AllPlainCode(content)
    case ListItem(content) => AllPlainCode(content)
    case CodeBlock(content) => TextOrSilent(content)
    case _ => true
  }

  predicate AllPlainCode(nodes: seq<Node>)
    decreases nodes
  {
    nodes == [] || (PlainCode(nodes[0]) && AllPlainCode(nodes[1..]))
  }

  predicate TextOrSilent(content: seq<Node>) {
    content == [] || ((content[0].Text? || Silent(content[0])) && TextOrSilent(content[1..]))
  }

  /** No text node outside code is empty and unmarked. */
  predicate NoEmptyText(node: Node)
    decreases node
  {
    match node
    case Text(text, marks) => text != "" || marks.Some?
    case Paragraph(content) => NoneEmpty(content)
    case Heading(_, content) => NoneEmpty(content)
    case Block(_, content) => NoneEmpty(content)
    case ListItem(content) => NoneEmpty(content)
    case _ => true
  }

  predicate NoneEmpty(nodes: seq<Node>)
    decreases nodes
  {
    nodes == [] || (NoEmptyText(nodes[0]) && NoneEmpty(nodes[1..]))
  }

  lemma {:induction false} SilentIs(node: Node, cfg: Config)
    ensures Silent(node) <==> SourceText(node, cfg) == ""
    decreases node
  {
    match node
    case Paragraph(content) => AllSilentIs(content, cfg);
    case Heading(_, content) => AllSilentIs(content, cfg);
    case Block(_, content) => AllSilentIs(content, cfg);
    case ListItem(content) => AllSilentIs(content, cfg);
    case CodeBlock(content) => AllSilentIs(content, cfg);
    case _ =>
  }

  lemma {:induction false} AllSilentIs(nodes: seq<Node>, cfg: Config)
    ensures AllSilent(nodes) <==> AllSourceText(nodes, cfg) == ""
    decreases nodes
  {
    if nodes != [] {
      SilentIs(nodes[0], cfg);
      AllSilentIs(nodes[1..], cfg);
    }
  }

  /** Two texts, the first no longer than the second, that are the same just under a condition. */
  ghost predicate AtMost(a: string, b: string, same: bool) {
    |a| <= |b| && (a == b <==> same) && (!same ==> |a| < |b|)
  }

  lemma Joined(a1: string, b1: string, same1: bool, a2: string, b2: string, same2: bool)
    requires AtMost(a1, b1, same1) && AtMost(a2, b2, same2)
    ensures AtMost(a1 + a2, b1 + b2, same1 && same2)
  {
  }

  lemma {:induction false} MarksKeepText(marks: seq<Mark>, inner: Html, cfg: Config)
    requires RenderMarks(marks, inner, cfg).Done?
    ensures HtmlText(RenderMarks(marks, inner, cfg).value) == HtmlText(inner)
    decreases marks
  {
    if marks != [] {
      MarksKeepText(marks[1..], RenderMark(marks[0], inner, cfg), cfg);
    }
  }

  /** A code block shows its children's text, or less when one that is no text node has some. */
  lemma {:induction false} CodeKeepsText(content: seq<Node>, cfg: Config)
    ensures AtMost(CodeText(content), AllSourceText(content, cfg), TextOrSilent(content))
    decreases content
  {
    if content != [] {
      SilentIs(content[0], cfg);
      CodeKeepsText(content[1..], cfg);
      Joined(if content[0].Text? then content[0].text else "", SourceText(content[0], cfg),
             content[0].Text? || Silent(content[0]),
             CodeText(content[1..]), AllSourceText(content[1..], cfg), TextOrSilent(content[1..]));
    }
  }

  lemma BareText()
    ensures HtmlAllText([NonBreakingSpace]) == ""
  {
    assert [NonBreakingSpace][1..] == [];
  }

  /** Placeholders for empty text only add to the source's text. */
  lemma {:induction false} NodeAddsText(node: Node, at: Context, cfg: Config)
    requires PlainCode(node) && RenderNode(node, at, cfg).Done?
    ensures AtMost(SourceText(node, cfg), HtmlText(RenderNode(node, at, cfg).value), NoEmptyText(node))
    decreases node
  {
    match node
    case Text(text, marks) =>
      if marks.Some? {
        MarksKeepText(marks.value, if text == "" then NonBreakingSpace else Words(text), cfg);
      }
    case Paragraph(content) => AllAddText(content, NO_CONTEXT, cfg);
    case Heading(_, content) => AllAddText(content, NO_CONTEXT, cfg);
    case Block(_, content) => AllAddText(content, NO_CONTEXT, cfg);
    case ListItem(content) => AllAddText(content, at.(inItem := true), cfg);
    case CodeBlock(content) => CodeKeepsText(content, cfg);
    case BareParagraph => BareText();
    case _ =>
  }

  lemma {:induction false} AllAddText(nodes: seq<Node>, at: Context, cfg: Config)
    requires AllPlainCode(nodes) && RenderAll(nodes, at, cfg).Done?
    ensures AtMost(AllSourceText(nodes, cfg), HtmlAllText(RenderAll(nodes, at, cfg).value), NoneEmpty(nodes))
    decreases nodes
  {
    if nodes != [] {
      NodeAddsText(nodes[0], at, cfg);
      AllAddText(nodes[1..], at, cfg);
      var all := RenderAll(nodes, at, cfg).value;
      assert all[1..] == RenderAll(nodes[1..], at, cfg).value;
      Joined(SourceText(nodes[0], cfg), HtmlText(all[0]), NoEmptyText(nodes[0]),
             AllSourceText(nodes[1..], cfg), HtmlAllText(all[1..]), NoneEmpty(nodes[1..]));
    }
  }

  /** Code blocks only take from it. */
  lemma {:induction false} NodeLosesText(node: Node, at: Context, cfg: Config)
    requires NoEmptyText(node) && RenderNode(node, at, cfg).Done?
    ensures AtMost(HtmlText(RenderNode(node, at, cfg).value), SourceText(node, cfg), PlainCode(node))
    decreases node
  {
    match node
    case Text(text, marks) =>
      if marks.Some? {
        MarksKeepText(marks.value, if text == "" then NonBreakingSpace else Words(text), cfg);
      }
    case Paragraph(content) => AllLoseText(content, NO_CONTEXT, cfg);
    case Heading(_, content) => AllLoseText(content, NO_CONTEXT, cfg);
    case Block(_, content) => AllLoseText(content, NO_CONTEXT, cfg);
    case ListItem(content) => AllLoseText(content, at.(inItem := true), cfg);
    case CodeBlock(content) => CodeKeepsText(content, cfg);
    case BareParagraph => BareText();
    case _ =>
  }

  lemma {:induction false} AllLoseText(nodes: seq<Node>, at: Context, cfg: Config)
    requires NoneEmpty(nodes) && RenderAll(nodes, at, cfg).Done?
    ensures AtMost(HtmlAllText(RenderAll(nodes, at, cfg).value), AllSourceText(nodes, cfg), AllPlainCode(nodes))
    decreases nodes
  {
    if nodes != [] {
      NodeLosesText(nodes[0], at, cfg);
      AllLoseText(nodes[1..], at, cfg);
      var all := RenderAll(nodes, at, cfg).value;
      assert all[1..] == RenderAll(nodes[1..], at, cfg).value;
      Joined(HtmlText(all[0]), SourceText(nodes[0], cfg), PlainCode(nodes[0]),
             HtmlAllText(all[1..]), AllSourceText(nodes[1..], cfg), AllPlainCode(nodes[1..]));
    }
  }

  lemma {:induction false} TopKeepsText(nodes: seq<Node>, i: nat, cfg: Config)
    requires i <= |nodes| && RenderTop(nodes, i, cfg).Done?
    ensures var output, source := HtmlAllText(RenderTop(nodes, i, cfg).value), AllSourceText(nodes[i..], cfg);
            && (AllPlainCode(nodes[i..]) ==> AtMost(source, output, NoneEmpty(nodes[i..])))
            && (NoneEmpty(nodes[i..]) ==> AtMost(output, source, AllPlainCode(nodes[i..])))
    decreases |nodes| - i
  {
    if i < |nodes| {
      var all := RenderTop(nodes, i, cfg).value;
      assert nodes[i..][1..] == nodes[i + 1..] && all[1..] == RenderTop(nodes, i + 1, cfg).value;
      TopKeepsText(nodes, i + 1, cfg);
      if AllPlainCode(nodes[i..]) {
        NodeAddsText(nodes[i], TopContext(nodes, i), cfg);
        Joined(SourceText(nodes[i], cfg), HtmlText(all[0]), NoEmptyText(nodes[i]),
               AllSourceText(nodes[i + 1..], cfg), HtmlAllText(all[1..]), NoneEmpty(nodes[i + 1..]));
      }
      if NoneEmpty(nodes[i..]) {
        NodeLosesText(nodes[i], TopContext(nodes, i), cfg);
        Joined(HtmlText(all[0]), SourceText(nodes[i], cfg), PlainCode(nodes[i]),
               HtmlAllText(all[1..]), AllSourceText(nodes[i + 1..], cfg), AllPlainCode(nodes[i + 1..]));
      }
    }
  }

  /**
   The text of a supported document comes out whole and in order, when its code blocks hold only text, just
   when no unmarked text node is empty; and when none is empty, just when its code blocks hold only text.
   */
  lemma TextIsKept(nodes: seq<Node>, cfg: Config)
    requires AllSupported(nodes)
    ensures RenderDocument(nodes, cfg).Done?
    ensures AllPlainCode(nodes) || NoneEmpty(nodes) ==>
              (HtmlAllText(RenderDocument(nodes, cfg).value) == AllSourceText(nodes, cfg) <==>
                 AllPlainCode(nodes) && NoneEmpty(nodes))
  {
    RendersWhenSupported(nodes, cfg);
    assert nodes[0..] == nodes;
    TopKeepsText(nodes, 0, cfg);
  }

  lemma TwoParts(a: Node, b: Node, cfg: Config, first: Html, second: Html)
    requires RenderNode(a, TopContext([a, b], 0), cfg) == Done(first)
    requires RenderNode(b, TopContext([a, b], 1), cfg) == Done(second)
    ensures RenderDocument([a, b], cfg) == Done([first, second])
    ensures HtmlAllText([first, second]) == HtmlText(first) + HtmlText(second)
    ensures AllSourceText([a, b], cfg) == SourceText(a, cfg) + SourceText(b, cfg)
  {
    var nodes := [a, b];
    assert RenderTop(nodes, 2, cfg) == Done([]);
    assert RenderTop(nodes, 1, cfg) == Done([second]) by {
      assert [second] + [] == [second];
    }
    assert [first, second] == [first] + [second];
    assert [first, second][1..] == [second] && [second][1..] == [];
    assert HtmlAllText([second]) == HtmlText(second) by {
      assert HtmlText(second) + "" == HtmlText(second);
    }
    assert nodes[1..] == [b] && [b][1..] == [];
    assert AllSourceText([b], cfg) == SourceText(b, cfg) by {
      assert SourceText(b, cfg) + "" == SourceText(b, cfg);
    }
  }

  lemma NestedText(text: string, cfg: Config)
    requires text != ""
    ensures var code := [Paragraph([Text(text, None)])];
            !TextOrSilent(code) && CodeText(code) == "" && AllSourceText(code, cfg) == text
  {
    var inner := [Text(text, None)];
    assert inner[1..] == [] && [Paragraph(inner)][1..] == [];
    assert AllSourceText(inner, cfg) == text && !AllSilent(inner);
  }

  /** With both faults at once what one adds may be what the other loses. */
  lemma FaultsMayCancel(cfg: Config)
    ensures var nodes := [Text("", None), CodeBlock([Paragraph([Text("&nbsp", None)])])];
            && AllSupported(nodes) && !AllPlainCode(nodes) && !NoneEmpty(nodes) && RenderDocument(nodes, cfg).Done?
            && HtmlAllText(RenderDocument(nodes, cfg).value) == AllSourceText(nodes, cfg)
  {
    var empty, code := Text("", None), CodeBlock([Paragraph([Text("&nbsp", None)])]);
    var nodes := [empty, code];
    NestedText("&nbsp", cfg);
    TwoParts(empty, code, cfg, Words("&nbsp"), Code(""));
    assert nodes[1..] == [code] && [code][1..] == [];
  }

  /******* Neighbours *******/

  /** The i-th part of the output is the i-th node, rendered among its own neighbours. */
  lemma {:induction false} TopAt(nodes: seq<Node>, i: nat, k: nat, cfg: Config)
    requires k <= i < |nodes| && RenderTop(nodes, k, cfg).Done?
    ensures |RenderTop(nodes, k, cfg).value| == |nodes| - k
    ensures RenderNode(nodes[i], TopContext(nodes, i), cfg) == Done(RenderTop(nodes, k, cfg).value[i - k])
    decreases |nodes| - k
  {
    var rest := RenderTop(nodes, k + 1, cfg).value;
    assert RenderTop(nodes, k, cfg).value[1..] == rest;
    if k < i {
      TopAt(nodes, i, k + 1, cfg);
    } else if k + 1 < |nodes| {
      TopAt(nodes, k + 1, k + 1, cfg);
    }
  }

  /** Nodes that keep a gap below them unless something closes it. */
  predicate Spaced(node: Node) {
    node.BareParagraph? || node.Paragraph? || node.Heading? || node.Button? || node.Image? || node.Logo? ||
    (node.Block? && node.kind.Quote?)
  }

  function GapClosed(html: Html): bool {
    match html
    case Element(_, _, flushBottom, _) => flushBottom
    case Anchor(_, _, flushBottom) => flushBottom
    case Picture(_, _, flushBottom) => flushBottom
    case _ => false
  }

  /** At the top level the gap below a node is closed exactly when a spacer follows it. */
  lemma SpacersCloseGaps(nodes: seq<Node>, i: nat, cfg: Config)
    requires RenderDocument(nodes, cfg).Done? && i < |nodes| && Spaced(nodes[i])
    ensures |RenderDocument(nodes, cfg).value| == |nodes|
    ensures GapClosed(RenderDocument(nodes, cfg).value[i]) <==> i + 1 < |nodes| && nodes[i + 1].Spacer?
  {
    TopAt(nodes, i, 0, cfg);
  }

  lemma {:induction false} AllAt(nodes: seq<Node>, at: Context, cfg: Config, i: nat)
    requires RenderAll(nodes, at, cfg).Done? && i < |nodes|
    ensures |RenderAll(nodes, at, cfg).value| == |nodes|
    ensures RenderNode(nodes[i], at, cfg) == Done(RenderAll(nodes, at, cfg).value[i])
    decreases nodes
  {
    assert RenderAll(nodes, at, cfg).value[1..] == RenderAll(nodes[1..], at, cfg).value;
    if i > 0 {
      AllAt(nodes[1..], at, cfg, i - 1);
    } else if |nodes| > 1 {
      AllAt(nodes[1..], at, cfg, 0);
    }
  }

  /** Paragraphs directly inside a list item leave no gap, wherever the item stands. */
  lemma ItemParagraphsClose(content: seq<Node>, at: Context, cfg: Config, i: nat)
    requires RenderNode(ListItem(content), at, cfg).Done? && i < |content|
    requires content[i].Paragraph? || content[i].BareParagraph?
    ensures |RenderNode(ListItem(content), at, cfg).value.children| == |content|
    ensures GapClosed(RenderNode(ListItem(content), at, cfg).value.children[i])
  {
    AllAt(content, at.(inItem := true), cfg, i);
  }
}
