/**
 Reading a document back from its markup, and the gaps inside it: the markup of a document without values
 holds each node in its place, with its own marks, targets, levels and gaps.
 */
module EmailMarkup {
  import opened Options
  import opened EmailRenderer
  import opened EmailMeaning

  /******* Reading markup *******/

  /** The text or placeholder inside some marks, and the marks, the innermost first. */
  function ReadMarks(html: Html): (Html, seq<Mark>)
    decreases html
  {
    match html
    case Marked(mark, inner) => (ReadMarks(inner).0, ReadMarks(inner).1 + [mark])
    case Hyperlink(href, inner) => (ReadMarks(inner).0, ReadMarks(inner).1 + [Link(href)])
    case _ => (html, [])
  }

  function ReadText(html: Html): Node {
    var (inner, marks) := ReadMarks(html);
    match inner
    case Words(text) => Text(text, if marks == [] then None else Some(marks))
    case _ => Text("", Some(marks))
  }

  function ReadNode(html: Html): Node
    decreases html
  {
    match html
    case Element(P, _, _, children) =>
      if children == [NonBreakingSpace] then BareParagraph else Paragraph(ReadNodes(children))
    case Element(H(level), _, _, children) => Heading(level, ReadNodes(children))
    case Element(Container(kind), _, _, children) => Block(kind, ReadNodes(children))
    case Element(Item, _, _, children) => ListItem(ReadNodes(children))
    case Code(code) => CodeBlock([Text(code, None)])
    case Anchor(caption, href, _) => Button(caption, href)
    case Picture(src, link, _) => Image(src, link)
    case Blank => Spacer
    case Break => HardBreak
    case Line => Rule
    case _ => ReadText(html)
  }

  function ReadNodes(nodes: seq<Html>): seq<Node>
    decreases nodes
  {
    if nodes == [] then [] else [ReadNode(nodes[0])] + ReadNodes(nodes[1..])
  }

  /******* What a document looks like in markup *******/

  function PlainMark(mark: Mark): Mark {
    if mark == Link("") then Link("#") else mark
  }

  function PlainMarks(marks: seq<Mark>): seq<Mark> {
    if marks == [] then [] else [PlainMark(marks[0])] + PlainMarks(marks[1..])
  }

  function OwnText(node: Node): string {
    match node
    case Text(text, _) => text
    case _ => ""
  }

  /** The texts of a code block's children, told from the right. */
  function CodeWords(content: seq<Node>): string {
    if content == [] then "" else CodeWords(content[..|content| - 1]) + OwnText(content[|content| - 1])
  }

  /** What can be told from the markup: empty texts by their placeholders, logos as images, code as its text. */
  function Plainly(node: Node): Node
    decreases node
  {
    match node
    case Text(text, None) => Text(if text == "" then "&nbsp" else text, None)
    case Text(text, Some(marks)) =>
      if marks == [] && text != "" then Text(text, None) else Text(text, Some(PlainMarks(marks)))
    case Variable(id, fallback) =>
      Text(if fallback == "" then "{{" + id + "}}" else "{{" + id + ",fallback=" + fallback + "}}", None)
    case Paragraph(content) =>
      if content == [Text("", Some([]))] then BareParagraph else Paragraph(AllPlainly(content))
    case Heading(level, content) => Heading(if level == 0 then 1 else level, AllPlainly(content))
    case Block(kind, content) => Block(kind, AllPlainly(content))
    case ListItem(content) => ListItem(AllPlainly(content))
    case CodeBlock(content) => CodeBlock([Text(CodeWords(content), None)])
    case Logo(src) => Image(src, "")
    case _ => node
  }

  function AllPlainly(nodes: seq<Node>): seq<Node>
    decreases nodes
  {
    if nodes == [] then [] else [Plainly(nodes[0])] + AllPlainly(nodes[1..])
  }

  /******* The proof *******/

  lemma MarkReads(mark: Mark, inner: Html)
    requires !mark.UnknownMark?
    ensures ReadMarks(RenderMark(mark, inner, PLAIN)) == (ReadMarks(inner).0, ReadMarks(inner).1 + [PlainMark(mark)])
  {
  }

  lemma {:induction false} MarksRead(marks: seq<Mark>, inner: Html)
    requires MarksFit(marks)
    ensures RenderMarks(marks, inner, PLAIN).Done?
    ensures ReadMarks(RenderMarks(marks, inner, PLAIN).value) ==
            (ReadMarks(inner).0, ReadMarks(inner).1 + PlainMarks(marks))
    decreases marks
  {
    if marks == [] {
      assert ReadMarks(inner).1 + [] == ReadMarks(inner).1;
    } else {
      MarkReads(marks[0], inner);
      MarksRead(marks[1..], RenderMark(marks[0], inner, PLAIN));
      var so, mark, rest := ReadMarks(inner).1, PlainMark(marks[0]), PlainMarks(marks[1..]);
      assert (so + [mark]) + rest == so + ([mark] + rest);
    }
  }

  predicate IsText(html: Html) {
    html.Words? || html.NonBreakingSpace? || html.Marked? || html.Hyperlink?
  }

  /** Marks never look like an element. */
  lemma {:induction false} MarksAreText(marks: seq<Mark>, inner: Html, cfg: Config)
    requires RenderMarks(marks, inner, cfg).Done? && IsText(inner)
    ensures IsText(RenderMarks(marks, inner, cfg).value)
    ensures RenderMarks(marks, inner, cfg).value == NonBreakingSpace ==> marks == [] && inner == NonBreakingSpace
    decreases marks
  {
    if marks != [] {
      MarksAreText(marks[1..], RenderMark(marks[0], inner, cfg), cfg);
    }
  }

  lemma TextReads(text: string, marks: Option<seq<Mark>>)
    requires marks.None? || MarksFit(marks.value)
    ensures RenderText(text, marks, PLAIN).Done?
    ensures ReadNode(RenderText(text, marks, PLAIN).value) == Plainly(Text(text, marks))
    ensures RenderText(text, marks, PLAIN).value == NonBreakingSpace <==> text == "" && marks == Some([])
  {
    if marks.Some? {
      var inner := if text == "" then NonBreakingSpace else Words(text);
      MarksRead(marks.value, inner);
      MarksAreText(marks.value, inner, PLAIN);
      assert [] + PlainMarks(marks.value) == PlainMarks(marks.value);
    }
  }

  lemma {:induction false} CodeWordsFirst(node: Node, rest: seq<Node>)
    ensures CodeWords([node] + rest) == OwnText(node) + CodeWords(rest)
    decreases rest
  {
    var all := [node] + rest;
    if rest == [] {
      assert all == [node] && [node][..0] == [];
    } else {
      var front, last := rest[..|rest| - 1], rest[|rest| - 1];
      assert all[..|all| - 1] == [node] + front && all[|all| - 1] == last;
      CodeWordsFirst(node, front);
      assert OwnText(node) + CodeWords(front) + OwnText(last) == OwnText(node) + (CodeWords(front) + OwnText(last));
    }
  }

  lemma {:induction false} CodeTextIs(content: seq<Node>)
    ensures CodeText(content) == CodeWords(content)
    decreases content
  {
    if content != [] {
      CodeTextIs(content[1..]);
      CodeWordsFirst(content[0], content[1..]);
      assert content == [content[0]] + content[1..];
    }
  }

  lemma OnlyPlaceholder(nodes: seq<Node>, all: seq<Html>)
    requires |all| == |nodes|
    requires forall i :: 0 <= i < |nodes| ==> (all[i] == NonBreakingSpace <==> nodes[i] == Text("", Some([])))
    ensures all == [NonBreakingSpace] <==> nodes == [Text("", Some([]))]
  {
    if |nodes| == 1 {
      assert all == [all[0]] && nodes == [nodes[0]];
    }
  }

  lemma LeafReads(node: Node, at: Context)
    requires Supported(node) && !node.Text? && !node.Paragraph? && !node.Heading? && !node.Block? && !node.ListItem?
    ensures RenderNode(node, at, PLAIN).Done? && RenderNode(node, at, PLAIN).value != NonBreakingSpace
    ensures ReadNode(RenderNode(node, at, PLAIN).value) == Plainly(node)
  {
    match node
    case CodeBlock(content) => CodeTextIs(content);
    case Variable(id, fallback) =>
      assert Words(VariableText(id, fallback, PLAIN)) == RenderNode(node, at, PLAIN).value;
    case _ =>
  }

  ghost predicate ContentReads(content: seq<Node>, at: Context) {
    RenderAll(content, at, PLAIN).Done? && ReadNodes(RenderAll(content, at, PLAIN).value) == AllPlainly(content)
  }

  ghost predicate Reads(node: Node, at: Context) {
    && RenderNode(node, at, PLAIN).Done? && ReadNode(RenderNode(node, at, PLAIN).value) == Plainly(node)
    && (RenderNode(node, at, PLAIN).value == NonBreakingSpace <==> node == Text("", Some([])))
  }

  lemma ParagraphReads(content: seq<Node>, at: Context)
    requires ContentReads(content, NO_CONTEXT)
    requires RenderAll(content, NO_CONTEXT, PLAIN).value == [NonBreakingSpace] <==> content == [Text("", Some([]))]
    ensures Reads(Paragraph(content), at)
  {
  }

  lemma HeadingReads(level: int, content: seq<Node>, at: Context)
    requires ContentReads(content, NO_CONTEXT) && 0 <= level <= 3
    ensures Reads(Heading(level, content), at)
  {
  }

  lemma BlockReads(kind: BlockKind, content: seq<Node>, at: Context)
    requires ContentReads(content, NO_CONTEXT)
    ensures Reads(Block(kind, content), at)
  {
  }

  lemma ItemReads(content: seq<Node>, at: Context)
    requires ContentReads(content, at.(inItem := true))
    ensures Reads(ListItem(content), at)
  {
  }

  /** A node's markup reads back as the node, wherever it stands. */
  lemma {:induction false} NodeReads(node: Node, at: Context)
    requires Supported(node)
    ensures Reads(node, at)
    decreases node
  {
    match node
    case Text(text, marks) => TextReads(text, marks);
    case Paragraph(content) =>
      NodesRead(content, NO_CONTEXT);
      OnlyPlaceholder(content, RenderAll(content, NO_CONTEXT, PLAIN).value);
      ParagraphReads(content, at);
    case Heading(level, content) =>
      NodesRead(content, NO_CONTEXT);
      HeadingReads(level, content, at);
    case Block(kind, content) =>
      NodesRead(content, NO_CONTEXT);
      BlockReads(kind, content, at);
    case ListItem(content) =>
      NodesRead(content, at.(inItem := true));
      ItemReads(content, at);
    case _ => LeafReads(node, at);
  }

  lemma {:induction false} NodesRead(nodes: seq<Node>, at: Context)
    requires AllSupported(nodes)
    ensures RenderAll(nodes, at, PLAIN).Done? && |RenderAll(nodes, at, PLAIN).value| == |nodes|
    ensures ReadNodes(RenderAll(nodes, at, PLAIN).value) == AllPlainly(nodes)
    ensures forall i :: 0 <= i < |nodes| ==>
              (RenderAll(nodes, at, PLAIN).value[i] == NonBreakingSpace <==> nodes[i] == Text("", Some([])))
    decreases nodes
  {
    if nodes != [] {
      NodeReads(nodes[0], at);
      NodesRead(nodes[1..], at);
      var all := RenderAll(nodes, at, PLAIN).value;
      assert all[1..] == RenderAll(nodes[1..], at, PLAIN).value;
      assert forall i :: 0 < i < |nodes| ==> all[i] == all[1..][i - 1] && nodes[i] == nodes[1..][i - 1];
    }
  }

  lemma {:induction false} TopReads(nodes: seq<Node>, i: nat)
    requires i <= |nodes| && AllSupported(nodes[i..])
    ensures RenderTop(nodes, i, PLAIN).Done?
    ensures ReadNodes(RenderTop(nodes, i, PLAIN).value) == AllPlainly(nodes[i..])
    decreases |nodes| - i
  {
    if i < |nodes| {
      assert nodes[i..][1..] == nodes[i + 1..];
      NodeReads(nodes[i], TopContext(nodes, i));
      TopReads(nodes, i + 1);
      assert RenderTop(nodes, i, PLAIN).value[1..] == RenderTop(nodes, i + 1, PLAIN).value;
    }
  }

  /** The markup of a supported document, no values put in, reads back as the document. */
  lemma MarkupReadsBack(nodes: seq<Node>)
    requires AllSupported(nodes)
    ensures RenderDocument(nodes, PLAIN).Done?
    ensures ReadNodes(RenderDocument(nodes, PLAIN).value) == AllPlainly(nodes)
  {
    assert nodes[0..] == nodes;
    TopReads(nodes, 0);
  }

  /** With values put in, it reads back as the document with its variables, links and buttons filled in. */
  lemma FilledMarkupReadsBack(nodes: seq<Node>, cfg: Config)
    requires AllSupported(nodes) && NoneInCode(nodes)
    ensures RenderDocument(nodes, cfg).Done?
    ensures ReadNodes(RenderDocument(nodes, cfg).value) == AllPlainly(FillAll(nodes, cfg, true))
  {
    RenderFilled(nodes, cfg);
    FillKeepsSupport(nodes, cfg, true);
    MarkupReadsBack(FillAll(nodes, cfg, true));
  }

  /******* Gaps *******/

  function TopGapClosed(html: Html): bool {
    html.Element? && html.flushTop
  }

  function ContentOf(node: Node): seq<Node> {
    match node
    case Paragraph(content) => content
    case Heading(_, content) => content
    case Block(_, content) => content
    case ListItem(content) => content
    case _ => []
  }

  /** Nodes that never leave a gap above them. */
  predicate FlushAbove(node: Node) {
    node.BareParagraph? || node.Paragraph? || node.Heading?
  }

  /** At the top level a gap below is closed exactly by a spacer after it, and one above a quote by one before it. */
  lemma TopGapsAre(nodes: seq<Node>, i: nat, cfg: Config)
    requires RenderDocument(nodes, cfg).Done? && i < |nodes|
    ensures |RenderDocument(nodes, cfg).value| == |nodes|
    ensures var html := RenderDocument(nodes, cfg).value[i];
            && (GapClosed(html) <==> Spaced(nodes[i]) && i + 1 < |nodes| && nodes[i + 1].Spacer?)
            && (TopGapClosed(html) <==>
                  || FlushAbove(nodes[i])
                  || (nodes[i] == Block(Quote, ContentOf(nodes[i])) && i > 0 && nodes[i - 1].Spacer?))
  {
    TopAt(nodes, i, 0, cfg);
    TextHasNoGap(nodes[i], TopContext(nodes, i), cfg);
  }

  /** Inside a paragraph, a heading, a list or a quote no gap below is closed and none above a quote. */
  lemma NestedGapsStay(node: Node, at: Context, cfg: Config, i: nat)
    requires RenderNode(node, at, cfg).Done? && (node.Paragraph? || node.Heading? || node.Block?)
    requires i < |ContentOf(node)|
    ensures |RenderNode(node, at, cfg).value.children| == |ContentOf(node)|
    ensures !GapClosed(RenderNode(node, at, cfg).value.children[i])
    ensures TopGapClosed(RenderNode(node, at, cfg).value.children[i]) <==> FlushAbove(ContentOf(node)[i])
  {
    AllAt(ContentOf(node), NO_CONTEXT, cfg, i);
    TextHasNoGap(ContentOf(node)[i], NO_CONTEXT, cfg);
  }

  lemma TextHasNoGap(node: Node, at: Context, cfg: Config)
    requires RenderNode(node, at, cfg).Done?
    ensures node.Text? ==> IsText(RenderNode(node, at, cfg).value)
  {
    if node.Text? && node.marks.Some? {
      MarksAreText(node.marks.value, if node.text == "" then NonBreakingSpace else Words(node.text), cfg);
    }
  }

  /** In the items of a list only paragraphs have their gap closed. */
  lemma ListGaps(kind: BlockKind, items: seq<Node>, at: Context, cfg: Config, i: nat, j: nat)
    requires RenderNode(Block(kind, items), at, cfg).Done?
    requires i < |items| && items[i].ListItem? && j < |items[i].content|
    ensures |RenderNode(Block(kind, items), at, cfg).value.children| == |items|
    ensures RenderNode(Block(kind, items), at, cfg).value.children[i].Element?
    ensures var children := RenderNode(Block(kind, items), at, cfg).value.children[i].children;
            && |children| == |items[i].content|
            && (GapClosed(children[j]) <==> items[i].content[j].Paragraph? || items[i].content[j].BareParagraph?)
  {
    AllAt(items, NO_CONTEXT, cfg, i);
    AllAt(items[i].content, NO_CONTEXT.(inItem := true), cfg, j);
    TextHasNoGap(items[i].content[j], NO_CONTEXT.(inItem := true), cfg);
  }
}
