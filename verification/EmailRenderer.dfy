/**
 The email renderer: a recursion over an editor document that builds markup, mapping variables and
 links to their values on the way. Markup keeps its shape, text, hrefs, and the margins that depend on
 a node's neighbours; the rest of its style is left out.
 */
module EmailRenderer {
  import opened Options

  /** Rendering throws on a node or mark type the renderer has no method for, and on an unknown heading level. */
  datatype Result<+T> = Done(value: T) | Threw
  {
    predicate IsFailure() { Threw? }
    function PropagateFailure<U>(): Result<U>
      requires IsFailure()
    {
      Threw
    }
    function Extract(): T
      requires Done?
    {
      value
    }
  }

  datatype Mark = Bold | Italic | Underline | Strike | CodeMark | TextStyle | Link(href: string) | UnknownMark

  datatype BlockKind = OrderedList | BulletList | Quote | Footer

  /**
   Absent content is the empty list, except that a paragraph without content is a BareParagraph; an absent
   text, url or fallback is empty.
   */
  datatype Node =
    | Text(text: string, marks: Option<seq<Mark>>)
    | Variable(id: string, fallback: string)
    | BareParagraph
    | Paragraph(content: seq<Node>)
    | Heading(level: int, content: seq<Node>)
    | Block(kind: BlockKind, content: seq<Node>)
    | ListItem(content: seq<Node>)
    | CodeBlock(content: seq<Node>)
    | Button(caption: string, url: string)
    | Image(src: string, externalLink: string)
    | Logo(src: string)
    | Spacer
    | HardBreak
    | Rule
    | UnknownNode

  datatype Html =
    | Words(text: string)
    | NonBreakingSpace
    | Marked(mark: Mark, inner: Html)
    | Hyperlink(href: string, inner: Html)
    | Element(tag: Tag, flushTop: bool, flushBottom: bool, children: seq<Html>)
    | Code(code: string)
    | Anchor(caption: string, href: string, flushBottom: bool)
    | Picture(src: string, link: string, flushBottom: bool)
    | Blank
    | Break
    | Line

  datatype Tag = P | H(level: nat) | Container(kind: BlockKind) | Item

  /** The options object: whether the parent is a list item, the neighbours spacers. */
  datatype Context = Context(inItem: bool, afterSpacer: bool, beforeSpacer: bool)

  const NO_CONTEXT := Context(false, false, false)

  datatype Config = Config(replace: bool, variables: map<string, string>, links: map<string, string>)

  /** A missing or empty value counts as none. */
  function Lookup(values: map<string, string>, key: string): string {
    if key in values then values[key] else ""
  }

  function Or(a: string, b: string): string {
    if a != "" then a else b
  }

  function Formatted(id: string, fallback: string): (r: string)
    ensures r != ""
  {
    if fallback != "" then "{{" + id + ",fallback=" + fallback + "}}" else "{{" + id + "}}"
  }

  function VariableText(id: string, fallback: string, cfg: Config): (r: string)
    ensures r != ""
  {
    if cfg.replace then Or(Lookup(cfg.variables, id), Or(fallback, Formatted(id, fallback)))
    else Formatted(id, fallback)
  }

  function Href(url: string, cfg: Config): string {
    Or(Lookup(cfg.links, url), Or(Lookup(cfg.variables, url), url))
  }

  /** The marks wrap the text one by one, the first innermost. */
  function RenderMarks(marks: seq<Mark>, inner: Html, cfg: Config): Result<Html>
    decreases marks
  {
    if marks == [] then Done(inner)
    else if marks[0].UnknownMark? then Threw
    else RenderMarks(marks[1..], RenderMark(marks[0], inner, cfg), cfg)
  }

  function RenderMark(mark: Mark, inner: Html, cfg: Config): Html {
    match mark
    case Link(href) => Hyperlink(Href(Or(href, "#"), cfg), inner)
    case _ => Marked(mark, inner)
  }

  function RenderText(text: string, marks: Option<seq<Mark>>, cfg: Config): Result<Html> {
    match marks
    case None => Done(Words(if text == "" then "&nbsp" else text))
    case Some(some) => RenderMarks(some, if text == "" then NonBreakingSpace else Words(text), cfg)
  }

  /** The text fields of a code block's children; a child without one adds nothing. */
  function CodeText(content: seq<Node>): string {
    if content == [] then "" else (if content[0].Text? then content[0].text else "") + CodeText(content[1..])
  }

  function RenderNode(node: Node, at: Context, cfg: Config): Result<Html>
    decreases node
  {
    match node
    case Text(text, marks) => RenderText(text, marks, cfg)
    case Variable(id, fallback) => Done(Words(VariableText(id, fallback, cfg)))
    case BareParagraph => Done(Element(P, true, at.inItem || at.beforeSpacer, [NonBreakingSpace]))
    case Paragraph(content) =>
      var children :- RenderAll(content, NO_CONTEXT, cfg);
      Done(Element(P, true, at.inItem || at.beforeSpacer, children))
    case Heading(level, content) =>
      var shown := if level == 0 then 1 else level;
      if !(1 <= shown <= 3) then Threw
      else
        var children :- RenderAll(content, NO_CONTEXT, cfg);
        Done(Element(H(shown), true, at.beforeSpacer, children))
    case Block(kind, content) =>
      var children :- RenderAll(content, NO_CONTEXT, cfg);
      Done(Element(Container(kind), kind.Quote? && at.afterSpacer, kind.Quote? && at.beforeSpacer, children))
    case ListItem(content) =>
      var children :- RenderAll(content, at.(inItem := true), cfg);
      Done(Element(Item, false, false, children))
    case CodeBlock(content) => Done(Code(CodeText(content)))
    case Button(caption, url) => Done(Anchor(caption, Href(url, cfg), at.beforeSpacer))
    case Image(src, link) => Done(Picture(src, link, at.beforeSpacer))
    case Logo(src) => Done(Picture(src, "", at.beforeSpacer))
    case Spacer => Done(Blank)
    case HardBreak => Done(Break)
    case Rule => Done(Line)
    case UnknownNode => Threw
  }

  function RenderAll(nodes: seq<Node>, at: Context, cfg: Config): Result<seq<Html>>
    decreases nodes
  {
    if nodes == [] then Done([])
    else
      var first :- RenderNode(nodes[0], at, cfg);
      var rest :- RenderAll(nodes[1..], at, cfg);
      Done([first] + rest)
  }

  /** A top-level node is handed its neighbours, and itself as its parent. */
  function TopContext(nodes: seq<Node>, i: nat): Context
    requires i < |nodes|
  {
    Context(nodes[i].ListItem?, i > 0 && nodes[i - 1].Spacer?, i + 1 < |nodes| && nodes[i + 1].Spacer?)
  }

  function RenderTop(nodes: seq<Node>, i: nat, cfg: Config): Result<seq<Html>>
    requires i <= |nodes|
    decreases |nodes| - i
  {
    if i == |nodes| then Done([])
    else
      var first :- RenderNode(nodes[i], TopContext(nodes, i), cfg);
      var rest :- RenderTop(nodes, i + 1, cfg);
      Done([first] + rest)
  }

  function RenderDocument(nodes: seq<Node>, cfg: Config): Result<seq<Html>> {
    RenderTop(nodes, 0, cfg)
  }

  /** The renderer object: render sets its three option fields and then reads them. */
  class Renderer {
    const email: seq<Node>
    var shouldReplaceVariableValues: bool
    var variableValues: map<string, string>
    var linkValues: map<string, string>

    constructor (email: seq<Node>)
      ensures this.email == email && Settings() == Config(false, map[], map[])
    {
      this.email := email;
      shouldReplaceVariableValues, variableValues, linkValues := false, map[], map[];
    }

    function Settings(): Config
      reads this
    {
      Config(shouldReplaceVariableValues, variableValues, linkValues)
    }

    /** Options that are not given fall back to their defaults, whatever an earlier call set. */
    method Render(shouldReplace: Option<bool>, variables: Option<map<string, string>>,
            links: Option<map<string, string>>)
      returns (markup: Result<seq<Html>>)
      modifies this
      ensures Settings() == Config(shouldReplace == Some(true), if variables.Some? then variables.value else map[],
                                   if links.Some? then links.value else map[])
      ensures markup == RenderDocument(email, Settings())
    {
      shouldReplaceVariableValues := shouldReplace == Some(true);
      variableValues := if variables.Some? then variables.value else map[];
      linkValues := if links.Some? then links.value else map[];
      markup := RenderDocument(email, Settings());
    }
  }

  /******* When rendering throws *******/

  predicate MarksFit(marks: seq<Mark>) {
    forall i :: 0 <= i < |marks| ==> !marks[i].UnknownMark?
  }

  /** Every node, mark and heading level on the way is supported; the inside of a code block is never looked at. */
  predicate Supported(node: Node) {
    match node
    case Text(_, marks) => marks.None? || MarksFit(marks.value)
    case Paragraph(content) => AllSupported(content)
    case Heading(level, content) => 0 <= level <= 3 && AllSupported(content)
    case Block(_, content) => AllSupported(content)
    case ListItem(content) => AllSupported(content)
    case UnknownNode => false
    case _ => true
  }

  predicate AllSupported(nodes: seq<Node>) {
    nodes == [] || (Supported(nodes[0]) && AllSupported(nodes[1..]))
  }

  lemma {:induction false} MarksRender(marks: seq<Mark>, inner: Html, cfg: Config)
    ensures RenderMarks(marks, inner, cfg).Done? <==> MarksFit(marks)
    decreases marks
  {
    if marks != [] && !marks[0].UnknownMark? {
      MarksRender(marks[1..], RenderMark(marks[0], inner, cfg), cfg);
      assert marks == [marks[0]] + marks[1..];
      assert MarksFit(marks) <==> MarksFit(marks[1..]);
    }
  }

  lemma {:induction false} NodeRenders(node: Node, at: Context, cfg: Config)
    ensures RenderNode(node, at, cfg).Done? <==> Supported(node)
    decreases node
  {
    match node
    case Text(text, marks) =>
      if marks.Some? {
        MarksRender(marks.value, if text == "" then NonBreakingSpace else Words(text), cfg);
      }
    case Paragraph(content) => AllRender(content, NO_CONTEXT, cfg);
    case Heading(_, content) => AllRender(content, NO_CONTEXT, cfg);
    case Block(_, content) => AllRender(content, NO_CONTEXT, cfg);
    case ListItem(content) => AllRender(content, at.(inItem := true), cfg);
    case _ =>
  }

  lemma {:induction false} AllRender(nodes: seq<Node>, at: Context, cfg: Config)
    ensures RenderAll(nodes, at, cfg).Done? <==> AllSupported(nodes)
    decreases nodes
  {
    if nodes != [] {
      NodeRenders(nodes[0], at, cfg);
      AllRender(nodes[1..], at, cfg);
    }
  }

  lemma {:induction false} TopRenders(nodes: seq<Node>, i: nat, cfg: Config)
    requires i <= |nodes|
    ensures RenderTop(nodes, i, cfg).Done? <==> AllSupported(nodes[i..])
    decreases |nodes| - i
  {
    if i < |nodes| {
      NodeRenders(nodes[i], TopContext(nodes, i), cfg);
      TopRenders(nodes, i + 1, cfg);
      assert nodes[i..][1..] == nodes[i + 1..];
    }
  }

  /** Rendering never throws on a document of supported nodes, marks and heading levels, and on no other. */
  lemma RendersWhenSupported(nodes: seq<Node>, cfg: Config)
    ensures RenderDocument(nodes, cfg).Done? <==> AllSupported(nodes)
  {
    TopRenders(nodes, 0, cfg);
    assert nodes[0..] == nodes;
  }
}
