/**
 * The expected strings of the unit tests of `htmlnode.py`, derived from the general
 * lemmas. The tests' texts and urls are kept as parameters, so each lemma covers its
 * test for every text and url.
 */
module HtmlNodeExamples {
  import opened Wrappers
  import opened Builtins
  import opened TextNodes
  import opened HtmlNodes

  /** A leaf with a tag and no attributes renders as open tag, value, close tag. */
  lemma TaggedLeafRenders(tag: string, value: string, expected: string)
    requires value != ""
    requires ("<" + tag + ">") + value + ("</" + tag + ">") == expected
    ensures ToHtml(NewLeafNode(Some(tag), Some(value), None).value) == Ok(expected)
  {
    LeafWithTagIsWrapped(tag, value, None);
    WrapWithoutAttributes(tag, value);
  }

  /** A parent with a tag, no attributes and one child wraps the child's output. */
  lemma TaggedParentRenders(tag: string, child: Node, inner: string, expected: string)
    requires ToHtml(child) == Ok(inner)
    requires ("<" + tag + ">") + inner + ("</" + tag + ">") == expected
    ensures ToHtml(NewParentNode(Some(tag), Some([child]), None)) == Ok(expected)
  {
    ParentConcatenatesChildren(tag, [child], None, [inner]);
    assert Concat([inner]) == inner;
    WrapWithoutAttributes(tag, inner);
  }

  /** An anchor's `href` and `target` render in insertion order. */
  lemma AnchorPropsExample(href: string, target: string)
    ensures PropsToHtml([("href", href), ("target", target)])
         == " href=\"" + href + "\" target=\"" + target + "\""
  {
    var entries := [("href", href), ("target", target)];
    var parts := AttributeStrings(entries);
    assert parts[1..] == [Attribute("target", target)];
    assert Join(" ", parts[1..]) == Attribute("target", target);
    assert PropsToHtml(entries) == " " + (Attribute("href", href) + " " + Attribute("target", target));
  }

  /** A paragraph leaf, a raw-text leaf and the rejected empty value. */
  lemma LeafExamples(text: string)
    requires text != ""
    ensures NewLeafNode(Some("p"), Some(""), None) == Err(ValueError(LeafValueMessage))
    ensures ToHtml(NewLeafNode(Some("p"), Some(text), None).value) == Ok("<p>" + text + "</p>")
    ensures ToHtml(NewLeafNode(None, Some(text), None).value) == Ok(text)
  {
    TaggedLeafRenders("p", text, "<p>" + text + "</p>");
    LeafWithoutTagIsRawText(text, None);
  }

  /** Only regroups string concatenation, as a hint to the solver. */
  lemma AnchorAssembled(href: string, target: string, text: string)
    ensures "<" + "a" + (" href=\"" + href + "\" target=\"" + target + "\"") + ">" + text + "</" + "a" + ">"
         == "<a href=\"" + href + "\" target=\"" + target + "\">" + text + "</a>"
  {
  }

  /** An anchor leaf with two attributes. */
  lemma AnchorLeafExample(text: string, href: string, target: string)
    requires text != ""
    ensures ToHtml(NewLeafNode(Some("a"), Some(text), Some([("href", href), ("target", target)])).value)
         == Ok("<a href=\"" + href + "\" target=\"" + target + "\">" + text + "</a>")
  {
    LeafWithTagIsWrapped("a", text, Some([("href", href), ("target", target)]));
    AnchorPropsExample(href, target);
    AnchorAssembled(href, target, text);
  }

  /** A `div` holding one `span` leaf. */
  lemma ParentWithChildExample(text: string)
    requires text != ""
    ensures ToHtml(NewParentNode(Some("div"), Some([NewLeafNode(Some("span"), Some(text), None).value]), None))
         == Ok("<div><span>" + text + "</span></div>")
  {
    var span := NewLeafNode(Some("span"), Some(text), None).value;
    TaggedLeafRenders("span", text, "<span>" + text + "</span>");
    TaggedParentRenders("div", span, "<span>" + text + "</span>", "<div><span>" + text + "</span></div>");
  }

  /** Only regroups string concatenation, as a hint to the solver. */
  lemma NestedAssembled(text: string)
    ensures "<div>" + ("<span>" + ("<b>" + text + "</b>") + "</span>") + "</div>"
         == "<div><span><b>" + text + "</b></span></div>"
  {
  }

  /** A `div` holding a `span` parent holding a `b` leaf. */
  lemma ParentWithGrandchildExample(text: string)
    requires text != ""
    ensures ToHtml(NewParentNode(Some("div"), Some([NewParentNode(Some("span"),
                     Some([NewLeafNode(Some("b"), Some(text), None).value]), None)]), None))
         == Ok("<div><span><b>" + text + "</b></span></div>")
  {
    var bold := NewLeafNode(Some("b"), Some(text), None).value;
    var boldHtml := "<b>" + text + "</b>";
    var spanHtml := "<span>" + boldHtml + "</span>";
    TaggedLeafRenders("b", text, boldHtml);
    var inner := NewParentNode(Some("span"), Some([bold]), None);
    TaggedParentRenders("span", bold, boldHtml, spanHtml);
    TaggedParentRenders("div", inner, spanHtml, "<div>" + spanHtml + "</div>");
    NestedAssembled(text);
  }

  /** Only regroups string concatenation, as a hint to the solver. */
  lemma MixedChildrenAssembled(tag: string, bold: string, plain: string, italic: string, tail: string)
    ensures ("<" + tag + ">") + (("<b>" + bold + "</b>") + (plain + (("<i>" + italic + "</i>") + tail))) + ("</" + tag + ">")
         == "<" + tag + "><b>" + bold + "</b>" + plain + "<i>" + italic + "</i>" + tail + "</" + tag + ">"
  {
  }

  /** A paragraph or heading of bold, plain, italic and plain leaves, rendered side by side. */
  lemma ParentWithManyChildrenExample(tag: string, bold: string, plain: string, italic: string, tail: string)
    requires bold != "" && plain != "" && italic != "" && tail != ""
    ensures ToHtml(NewParentNode(Some(tag), Some([
                     NewLeafNode(Some("b"), Some(bold), None).value,
                     NewLeafNode(None, Some(plain), None).value,
                     NewLeafNode(Some("i"), Some(italic), None).value,
                     NewLeafNode(None, Some(tail), None).value]), None))
         == Ok("<" + tag + "><b>" + bold + "</b>" + plain + "<i>" + italic + "</i>" + tail + "</" + tag + ">")
  {
    var nodes := [NewLeafNode(Some("b"), Some(bold), None).value,
                  NewLeafNode(None, Some(plain), None).value,
                  NewLeafNode(Some("i"), Some(italic), None).value,
                  NewLeafNode(None, Some(tail), None).value];
    var parts := ["<b>" + bold + "</b>", plain, "<i>" + italic + "</i>", tail];
    TaggedLeafRenders("b", bold, parts[0]);
    LeafWithoutTagIsRawText(plain, None);
    TaggedLeafRenders("i", italic, parts[2]);
    LeafWithoutTagIsRawText(tail, None);
    ParentConcatenatesChildren(tag, nodes, None, parts);
    assert Concat(parts[3..]) == parts[3] by { assert parts[3..][1..] == []; }
    assert Concat(parts[2..]) == parts[2] + parts[3] by { assert parts[2..][1..] == parts[3..]; }
    assert Concat(parts[1..]) == parts[1] + (parts[2] + parts[3]) by { assert parts[1..][1..] == parts[2..]; }
    assert Concat(parts) == parts[0] + (parts[1] + (parts[2] + parts[3]));
    WrapWithoutAttributes(tag, Concat(parts));
    MixedChildrenAssembled(tag, bold, plain, italic, tail);
  }

  /** A plain span converts to a leaf without a tag holding the span's text. */
  lemma ConverterExample(text: string)
    requires text != ""
    ensures TextNodeToHtmlNode(TextNode(text, NormalText, None)).Ok?
    ensures TextNodeToHtmlNode(TextNode(text, NormalText, None)).value.tag == None
    ensures TextNodeToHtmlNode(TextNode(text, NormalText, None)).value.value == Some(text)
  {
  }
}
