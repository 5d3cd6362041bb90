/**
 * The HTML node tree of `htmlnode.py` and its renderer.
 *
 * Python's three classes `HTMLNode`, `LeafNode` and `ParentNode` become the three
 * variants of `Node`; each variant holds the instance attributes its `to_html` reads.
 * Raised exceptions become `Err` results carrying the exception class and message.
 */
module HtmlNodes {
  import opened Wrappers
  import opened Builtins
  import opened TextNodes

  /** The exceptions the core raises: their class and message. */
  datatype Error = NotImplementedError(message: string) | ValueError(message: string)

  const NotImplementedMessage := "to_html not impleented"
  const LeafValueMessage := "All leaf nodes must have a value"
  const NoValueMessage := "invalid HTML: no value"
  const NoTagMessage := "invalid parent node: no tag"
  const NoChildrenMessage := "Parent node must have children"

  /** No attribute name occurs twice, as in the Python dict that holds the attributes. */
  predicate KeysDistinct(entries: seq<(string, string)>) {
    forall i, j :: 0 <= i < j < |entries| ==> entries[i].0 != entries[j].0
  }

  /** The `props` dict: attribute names and values in insertion order. */
  type Props = entries: seq<(string, string)> | KeysDistinct(entries)

  /**
   * An HTML node. `Base` is a plain `HTMLNode`, `Leaf` a `LeafNode` (whose `children`
   * attribute is always `[]` and never read), `Parent` a `ParentNode` (whose `value`
   * attribute is always `None` and never read).
   */
  datatype Node =
    | Base(tag: Option<string>, value: Option<string>, children: ChildSlot, props: Props)
    | Leaf(tag: Option<string>, value: Option<string>, props: Props)
    | Parent(tag: Option<string>, children: ChildSlot, props: Props)

  /** The `children` attribute: `None` (`Absent`) or a list of nodes. */
  datatype ChildSlot = Absent | Present(nodes: seq<Node>)

  // ---------------------------------------------------------------------------
  // Constructors
  // ---------------------------------------------------------------------------

  /** `HTMLNode(tag, value, children, props)`: absent collections become empty ones. */
  function NewHtmlNode(tag: Option<string>, value: Option<string>, children: Option<seq<Node>>,
                       props: Option<Props>): Node
  {
    Base(tag, value, Present(children.GetOr([])), props.GetOr([]))
  }

  /** `LeafNode(tag, value, props)`: raises unless `value` is truthy (present and non-empty). */
  function NewLeafNode(tag: Option<string>, value: Option<string>, props: Option<Props>): (r: Result<Node, Error>)
    ensures r.Ok? <==> !IsFalsy(value)
    ensures r.Ok? ==> r.value.Leaf? && r.value.tag == tag && r.value.value == value && Constructed(r.value)
    ensures r.Ok? ==> r.value.props == (if props.Some? then props.value else [])
    ensures r.Err? ==> r.error == ValueError(LeafValueMessage)
  {
    if IsFalsy(value) then Err(ValueError(LeafValueMessage))
    else Ok(Leaf(tag, value, props.GetOr([])))
  }

  /** `ParentNode(tag, children, props)`: never raises, not even for an absent tag. */
  function NewParentNode(tag: Option<string>, children: Option<seq<Node>>, props: Option<Props>): (n: Node)
    ensures n.Parent? && n.tag == tag && n.children.Present?
    ensures n.children.nodes == (if children.Some? then children.value else [])
    ensures n.props == (if props.Some? then props.value else [])
    ensures (forall i :: 0 <= i < |n.children.nodes| ==> Constructed(n.children.nodes[i])) ==> Constructed(n)
  {
    Parent(tag, Present(children.GetOr([])), props.GetOr([]))
  }

  /**
   * The nodes the three constructors can produce from constructed children: the
   * `children` attribute is always a list and a leaf's value is always truthy.
   */
  predicate Constructed(n: Node) {
    match n
    case Base(_, _, children, _) => children.Present?
    case Leaf(_, value, _) => !IsFalsy(value)
    case Parent(_, children, _) =>
      children.Present? && forall i :: 0 <= i < |children.nodes| ==> Constructed(children.nodes[i])
  }

  /** The base constructor stores its arguments, defaulting absent children to `[]` and absent props to `{}`. */
  lemma NewHtmlNodeDefaults(tag: Option<string>, value: Option<string>, children: Option<seq<Node>>,
                            props: Option<Props>)
    ensures NewHtmlNode(tag, value, children, props).tag == tag
    ensures NewHtmlNode(tag, value, children, props).value == value
    ensures children.None? ==> NewHtmlNode(tag, value, children, props).children == Present([])
    ensures children.Some? ==> NewHtmlNode(tag, value, children, props).children == Present(children.value)
    ensures props.None? ==> NewHtmlNode(tag, value, children, props).props == []
    ensures props.Some? ==> NewHtmlNode(tag, value, children, props).props == props.value
    ensures Constructed(NewHtmlNode(tag, value, children, props))
  {
  }

  // ---------------------------------------------------------------------------
  // Attributes
  // ---------------------------------------------------------------------------

  /** One attribute as `key="value"`, with no escaping of the value. */
  function Attribute(key: string, value: string): string {
    key + "=\"" + value + "\""
  }

  /** The attributes rendered one by one, in insertion order. */
  function AttributeStrings(entries: seq<(string, string)>): (r: seq<string>)
    ensures |r| == |entries|
    ensures forall i :: 0 <= i < |entries| ==> r[i] == Attribute(entries[i].0, entries[i].1)
  {
    if entries == [] then []
    else [Attribute(entries[0].0, entries[0].1)] + AttributeStrings(entries[1..])
  }

  /** `HTMLNode.props_to_html`: empty, or a leading space and the attributes joined by spaces. */
  function PropsToHtml(props: Props): string {
    if |props| == 0 then "" else " " + Join(" ", AttributeStrings(props))
  }

  /** Reference definition: every attribute preceded by one space. */
  function SpaceLed(entries: seq<(string, string)>): string {
    if entries == [] then "" else " " + Attribute(entries[0].0, entries[0].1) + SpaceLed(entries[1..])
  }

  lemma {:induction false} JoinedAttributesAreSpaceLed(entries: seq<(string, string)>)
    requires entries != []
    ensures " " + Join(" ", AttributeStrings(entries)) == SpaceLed(entries)
  {
    var rest := entries[1..];
    var parts := AttributeStrings(entries);
    assert parts[1..] == AttributeStrings(rest);
    if rest != [] {
      JoinedAttributesAreSpaceLed(rest);
      assert Join(" ", parts) == parts[0] + " " + Join(" ", parts[1..]);
    }
  }

  /** `props_to_html` puts one space before each `key="value"`, in insertion order. */
  lemma {:induction false} PropsToHtmlIsSpaceLed(props: Props)
    ensures PropsToHtml(props) == SpaceLed(props)
  {
    if props != [] {
      JoinedAttributesAreSpaceLed(props);
    }
  }

  lemma {:induction false} SpaceLedAppend(a: seq<(string, string)>, b: seq<(string, string)>)
    ensures SpaceLed(a + b) == SpaceLed(a) + SpaceLed(b)
  {
    if a == [] {
      assert a + b == b;
    } else {
      assert (a + b)[1..] == a[1..] + b;
      SpaceLedAppend(a[1..], b);
    }
  }

  /**
   * Empty props render as `""`, any other props begin with a space, and the
   * attributes of a concatenation render in the order of the concatenation.
   */
  lemma PropsToHtmlPreservesOrder(a: Props, b: Props)
    requires KeysDistinct(a + b)
    ensures PropsToHtml(a) == "" <==> a == []
    ensures a != [] ==> PropsToHtml(a)[0] == ' '
    ensures PropsToHtml(a + b) == PropsToHtml(a) + PropsToHtml(b)
  {
    PropsToHtmlIsSpaceLed(a);
    PropsToHtmlIsSpaceLed(b);
    PropsToHtmlIsSpaceLed(a + b);
    SpaceLedAppend(a, b);
  }

  // ---------------------------------------------------------------------------
  // Rendering
  // ---------------------------------------------------------------------------

  /** `to_html` of each class: `HTMLNode`, `LeafNode` or `ParentNode`. */
  function ToHtml(n: Node): Result<string, Error>
    decreases n, 1
  {
    match n
    case Base(_, _, _, _) => Err(NotImplementedError(NotImplementedMessage))
    case Leaf(tag, value, props) =>
      if value.None? then Err(ValueError(NoValueMessage))
      else if tag.None? then Ok(value.value)
      else Ok("<" + tag.value + PropsToHtml(props) + ">" + value.value + "</" + tag.value + ">")
    case Parent(tag, children, props) =>
      if tag.None? then Err(ValueError(NoTagMessage))
      else if children.Absent? then Err(ValueError(NoChildrenMessage))
      else
        match ChildrenToHtml(children.nodes)
        case Err(e) => Err(e)
        case Ok(parts) => Ok("<" + tag.value + PropsToHtml(props) + ">" + Join("", parts) + "</" + tag.value + ">")
  }

  /** `child.to_html() for child in children`, stopping at the first child that raises. */
  function ChildrenToHtml(nodes: seq<Node>): Result<seq<string>, Error>
    decreases nodes, 0
  {
    if nodes == [] then Ok([])
    else
      match ToHtml(nodes[0])
      case Err(e) => Err(e)
      case Ok(first) =>
        match ChildrenToHtml(nodes[1..])
        case Err(e) => Err(e)
        case Ok(rest) => Ok([first] + rest)
  }

  /** The children render when every child renders, and then to exactly their outputs in order. */
  lemma {:induction false} ChildrenToHtmlSucceeds(nodes: seq<Node>)
    ensures ChildrenToHtml(nodes).Ok? <==> forall i :: 0 <= i < |nodes| ==> ToHtml(nodes[i]).Ok?
    ensures ChildrenToHtml(nodes).Ok? ==>
              |ChildrenToHtml(nodes).value| == |nodes| &&
              forall i :: 0 <= i < |nodes| ==> ToHtml(nodes[i]) == Ok(ChildrenToHtml(nodes).value[i])
  {
    if nodes != [] {
      var rest := nodes[1..];
      ChildrenToHtmlSucceeds(rest);
      assert forall i :: 1 <= i < |nodes| ==> nodes[i] == rest[i - 1];
    }
  }

  /** The first child that fails decides the error of the whole list. */
  lemma {:induction false} FirstFailingChildDecides(nodes: seq<Node>, k: nat)
    requires k < |nodes|
    requires forall i :: 0 <= i < k ==> ToHtml(nodes[i]).Ok?
    requires ToHtml(nodes[k]).Err?
    ensures ChildrenToHtml(nodes) == Err(ToHtml(nodes[k]).error)
  {
    if k > 0 {
      var rest := nodes[1..];
      assert forall i :: 0 <= i < k - 1 ==> rest[i] == nodes[i + 1];
      FirstFailingChildDecides(rest, k - 1);
    }
  }

  /** A failure of the children is the failure of one child. */
  lemma {:induction false} FailureComesFromAChild(nodes: seq<Node>)
    requires ChildrenToHtml(nodes).Err?
    ensures exists k :: 0 <= k < |nodes| && ToHtml(nodes[k]) == Err(ChildrenToHtml(nodes).error)
  {
    if ToHtml(nodes[0]).Ok? {
      var rest := nodes[1..];
      FailureComesFromAChild(rest);
      var k :| 0 <= k < |rest| && ToHtml(rest[k]) == Err(ChildrenToHtml(rest).error);
      assert nodes[k + 1] == rest[k];
    }
  }

  /** A plain `HTMLNode` never renders. */
  lemma BaseNeverRenders(n: Node)
    requires n.Base?
    ensures ToHtml(n) == Err(NotImplementedError(NotImplementedMessage))
  {
  }

  /** A leaf without a tag renders as its value alone, whatever its props. */
  lemma LeafWithoutTagIsRawText(value: string, props: Option<Props>)
    requires value != ""
    ensures NewLeafNode(None, Some(value), props).Ok?
    ensures ToHtml(NewLeafNode(None, Some(value), props).value) == Ok(value)
  {
  }

  /** A leaf with a tag renders as `<tag attrs>value</tag>`. */
  lemma LeafWithTagIsWrapped(tag: string, value: string, props: Option<Props>)
    requires value != ""
    ensures NewLeafNode(Some(tag), Some(value), props).Ok?
    ensures ToHtml(NewLeafNode(Some(tag), Some(value), props).value)
         == Ok("<" + tag + PropsToHtml(props.GetOr([])) + ">" + value + "</" + tag + ">")
  {
  }

  /** A parent node without a tag is built without complaint and fails only when rendered. */
  lemma ParentTagCheckedAtRender(children: Option<seq<Node>>, props: Option<Props>)
    ensures NewParentNode(None, children, props).Parent?
    ensures ToHtml(NewParentNode(None, children, props)) == Err(ValueError(NoTagMessage))
  {
  }

  /**
   * A parent built with `children=None` holds an empty list, so the "must have
   * children" check never fires for it and it renders as an empty element.
   */
  lemma ParentWithoutChildrenIsEmptyElement(tag: string, props: Option<Props>)
    ensures ToHtml(NewParentNode(Some(tag), None, props)) != Err(ValueError(NoChildrenMessage))
    ensures ToHtml(NewParentNode(Some(tag), None, props))
         == Ok("<" + tag + PropsToHtml(props.GetOr([])) + "></" + tag + ">")
  {
    var start := "<" + tag + PropsToHtml(props.GetOr([]));
    assert ChildrenToHtml([]) == Ok([]) && Join("", []) == "";
    assert (start + ">") + "" == start + ">";
    assert ">" + "</" == "></";
    ConcatAssociates(start, ">", "</");
  }

  /** A parent renders its children's outputs, left to right, with no separator. */
  lemma ParentConcatenatesChildren(tag: string, nodes: seq<Node>, props: Option<Props>, parts: seq<string>)
    requires |parts| == |nodes|
    requires forall i :: 0 <= i < |nodes| ==> ToHtml(nodes[i]) == Ok(parts[i])
    ensures ToHtml(NewParentNode(Some(tag), Some(nodes), props))
         == Ok("<" + tag + PropsToHtml(props.GetOr([])) + ">" + Concat(parts) + "</" + tag + ">")
  {
    ChildrenToHtmlSucceeds(nodes);
    assert ChildrenToHtml(nodes).value == parts;
    JoinEmptySeparator(parts);
  }

  /** A parent whose `k`-th child is the first to fail fails with that child's error. */
  lemma ParentFailsWithFirstFailingChild(tag: string, nodes: seq<Node>, props: Option<Props>, k: nat)
    requires k < |nodes|
    requires forall i :: 0 <= i < k ==> ToHtml(nodes[i]).Ok?
    requires ToHtml(nodes[k]).Err?
    ensures ToHtml(NewParentNode(Some(tag), Some(nodes), props)) == ToHtml(nodes[k])
  {
    FirstFailingChildDecides(nodes, k);
  }

  /** Reference definition of a renderable tree: no plain `HTMLNode`, no leaf without a value, no parent without a tag or children. */
  predicate WellFormed(n: Node) {
    match n
    case Base(_, _, _, _) => false
    case Leaf(_, value, _) => value.Some?
    case Parent(tag, children, _) =>
      tag.Some? && children.Present? &&
      forall i :: 0 <= i < |children.nodes| ==> WellFormed(children.nodes[i])
  }

  /** Rendering succeeds exactly on well-formed trees. */
  lemma {:induction false} ToHtmlSucceedsIffWellFormed(n: Node)
    ensures ToHtml(n).Ok? <==> WellFormed(n)
    decreases n
  {
    match n
    case Base(_, _, _, _) =>
    case Leaf(_, _, _) =>
    case Parent(tag, children, _) =>
      if tag.Some? && children.Present? {
        var nodes := children.nodes;
        forall i | 0 <= i < |nodes|
          ensures ToHtml(nodes[i]).Ok? <==> WellFormed(nodes[i])
        {
          ToHtmlSucceedsIffWellFormed(nodes[i]);
        }
        ChildrenToHtmlSucceeds(nodes);
      }
  }

  /**
   * In a tree built by the constructors, the render-time checks for a missing leaf
   * value and for missing children never fire, at any depth.
   */
  lemma {:induction false} ConstructedSkipsDeadChecks(n: Node)
    requires Constructed(n)
    ensures ToHtml(n) != Err(ValueError(NoValueMessage))
    ensures ToHtml(n) != Err(ValueError(NoChildrenMessage))
    decreases n
  {
    match n
    case Base(_, _, _, _) =>
    case Leaf(_, _, _) =>
    case Parent(tag, children, _) =>
      if tag.Some? && ChildrenToHtml(children.nodes).Err? {
        var nodes := children.nodes;
        FailureComesFromAChild(nodes);
        var k :| 0 <= k < |nodes| && ToHtml(nodes[k]) == Err(ChildrenToHtml(nodes).error);
        ConstructedSkipsDeadChecks(nodes[k]);
      }
  }

  // ---------------------------------------------------------------------------
  // Converting text spans
  // ---------------------------------------------------------------------------

  /**
   * `text_node_to_html_node`: one leaf per span kind. A link's url is formatted
   * with `str`, so an absent url becomes the text `None`.
   */
  function TextNodeToHtmlNode(t: TextNode): (r: Result<Node, Error>)
    ensures r.Ok? <==> t.text != "" && t.textType != Images
    ensures r.Ok? ==> r.value.Leaf? && r.value.value == Some(t.text) && Constructed(r.value)
    ensures r.Err? ==> r.error == ValueError(LeafValueMessage)
  {
    match t.textType
    case BoldText => NewLeafNode(Some("b"), Some(t.text), None)
    case ItalicText => NewLeafNode(Some("i"), Some(t.text), None)
    case NormalText => NewLeafNode(None, Some(t.text), None)
    case CodeText => NewLeafNode(Some("code"), Some(t.text), None)
    case Links => NewLeafNode(Some("a"), Some(t.text), Some([("href", Str(t.url))]))
    case Images => NewLeafNode(Some("img"), Some(""), Some([("src", Str(t.url)), ("alt", t.text)]))
  }

  /** Only regroups string concatenation, as a hint to the solver: open tag, text, close tag. */
  lemma WrapWithoutAttributes(tag: string, text: string)
    ensures "<" + tag + PropsToHtml([]) + ">" + text + "</" + tag + ">" == ("<" + tag + ">") + text + ("</" + tag + ">")
  {
    assert "<" + tag + "" == "<" + tag;
    ConcatAssociates("<" + tag + ">" + text, "</", tag);
    ConcatAssociates("<" + tag + ">" + text, "</" + tag, ">");
  }

  /** What each converted span renders to. */
  lemma ConvertedSpanRenders(t: TextNode)
    requires t.text != "" && t.textType != Images
    ensures t.textType == NormalText ==> ToHtml(TextNodeToHtmlNode(t).value) == Ok(t.text)
    ensures t.textType == BoldText ==> ToHtml(TextNodeToHtmlNode(t).value) == Ok("<b>" + t.text + "</b>")
    ensures t.textType == ItalicText ==> ToHtml(TextNodeToHtmlNode(t).value) == Ok("<i>" + t.text + "</i>")
    ensures t.textType == CodeText ==> ToHtml(TextNodeToHtmlNode(t).value) == Ok("<code>" + t.text + "</code>")
    ensures t.textType == Links ==>
              ToHtml(TextNodeToHtmlNode(t).value) == Ok("<a href=\"" + Str(t.url) + "\">" + t.text + "</a>")
  {
    match t.textType
    case NormalText =>
    case BoldText =>
      WrapWithoutAttributes("b", t.text);
      assert "<" + "b" + ">" == "<b>" && "</" + "b" + ">" == "</b>";
    case ItalicText =>
      WrapWithoutAttributes("i", t.text);
      assert "<" + "i" + ">" == "<i>" && "</" + "i" + ">" == "</i>";
    case CodeText =>
      WrapWithoutAttributes("code", t.text);
      assert "<" + "code" + ">" == "<code>" && "</" + "code" + ">" == "</code>";
    case Links =>
      var url := Str(t.url);
      var entries := [("href", url)];
      assert entries[1..] == [];
      assert PropsToHtml(entries) == " " + Attribute("href", url);
      LinkAssembled(url, t.text);
  }

  /** Only regroups string concatenation of a rendered link, as a hint to the solver. */
  lemma LinkAssembled(url: string, text: string)
    ensures "<" + "a" + (" " + Attribute("href", url)) + ">" + text + "</" + "a" + ">"
         == "<a href=\"" + url + "\">" + text + "</a>"
  {
  }

  /** An image span never converts: the converter hands the leaf constructor an empty value. */
  lemma ImageSpanNeverConverts(t: TextNode)
    requires t.textType == Images
    ensures TextNodeToHtmlNode(t) == Err(ValueError(LeafValueMessage))
  {
  }

  /** The converter with its image row as evidently intended: an `img` leaf with an empty value. */
  function TextNodeToHtmlNodeIntended(t: TextNode): (r: Result<Node, Error>)
    ensures t.textType != Images ==> r == TextNodeToHtmlNode(t)
    ensures r.Ok? <==> t.text != "" || t.textType == Images
  {
    match t.textType
    case Images => Ok(Leaf(Some("img"), Some(""), [("src", Str(t.url)), ("alt", t.text)]))
    case _ => TextNodeToHtmlNode(t)
  }

  /** The intended image leaf renders with its `src` and `alt` attributes, in that order. */
  lemma IntendedImageRenders(t: TextNode)
    requires t.textType == Images
    ensures ToHtml(TextNodeToHtmlNodeIntended(t).value)
         == Ok("<img src=\"" + Str(t.url) + "\" alt=\"" + t.text + "\"></img>")
  {
    var entries := [("src", Str(t.url)), ("alt", t.text)];
    var parts := AttributeStrings(entries);
    assert parts == [Attribute("src", Str(t.url)), Attribute("alt", t.text)];
    assert Join(" ", parts[1..]) == Attribute("alt", t.text);
    assert PropsToHtml(entries) == " " + (Attribute("src", Str(t.url)) + " " + Attribute("alt", t.text));
    assert TextNodeToHtmlNodeIntended(t) == Ok(Leaf(Some("img"), Some(""), entries));
    assert ToHtml(Leaf(Some("img"), Some(""), entries))
        == Ok("<" + "img" + PropsToHtml(entries) + ">" + "" + "</" + "img" + ">");
    var u, x := Str(t.url), t.text;
    assert "<" + "img" + (" " + (("src" + "=\"" + u + "\"") + " " + ("alt" + "=\"" + x + "\""))) + ">" + "" + "</" + "img" + ">"
        == "<img src=\"" + u + "\" alt=\"" + x + "\"></img>";
  }
}
