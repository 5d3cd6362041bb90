# HTML node tree of a static site generator, in Dafny

This project models the core of a small static site generator: the styled text
spans of `src/textnode.py` and the HTML node tree of `src/htmlnode.py`, which turns
spans into leaf nodes and renders a tree of nodes to an HTML string.

- `wrappers.dfy` (`Wrappers`): `Option` for Python's `None`, `Result` for a value or a
  raised exception.
- `builtins.dfy` (`Builtins`): the Python built-ins the core relies on: `str()` of an
  optional string (absent prints as `None`), `str.join`, truthiness of a string, and
  plain concatenation as the reference for `"".join`.
- `textnode.dfy` (`TextNodes`): the `TextType` enum with its string values, the
  `TextNode` record (the datatype constructor is `__init__`, with the url passed as
  `None` when omitted), `__eq__` and `__repr__`.
- `htmlnode.dfy` (`HtmlNodes`): the three node classes as the variants of one datatype
  `Node` (`Base` is a plain `HTMLNode`, `Leaf` a `LeafNode`, `Parent` a `ParentNode`),
  their constructors, `props_to_html`, `to_html` and `text_node_to_html_node`.
  Exceptions are `Err` values carrying the exception class and its message, with the
  messages spelled as in the source (including "to_html not impleented").
- `htmlnode_examples.dfy` (`HtmlNodeExamples`): the expected strings of the unit tests,
  derived from the general lemmas, with the tests' texts and urls as parameters.

Props are an ordered sequence of `(name, value)` pairs whose names are distinct, as in
the Python dict: rendering follows insertion order. The `children` attribute is a
`ChildSlot` (`Absent` for `None`, or a list) so that the render-time check for missing
children can be modelled and shown never to fire for constructed nodes. Rendering is a
function, so rendering twice and converting twice give equal results by construction.

Where the code and the intended design differ, the model follows the code:
constructing a `ParentNode` without a tag succeeds and only rendering fails; the
image row of the converter raises instead of returning an `img` leaf (see Findings);
the last `case _` of the converter raises `ValueError`, not a dedicated error class,
and cannot be reached by a span whose kind is a `TextType` member.

## Model

| member | source | states |
|---|---|---|
| `Builtins.JoinEmptySeparator` | src/htmlnode.py:71 | `"".join(parts)` is the plain concatenation of the parts in order |
| `TextNodes.ValueIdentifiesMember` | src/textnode.py:3-9 | the six kinds carry pairwise distinct string values: equal values iff equal kinds |
| `TextNodes.EqualsIsStructural` | src/textnode.py:17-21 | `__eq__` holds exactly when text, kind and url are all equal |
| `TextNodes.EqualsIsEquivalence` | src/textnode.py:17-21 | `__eq__` is reflexive, symmetric and transitive |
| `TextNodes.EqualsDetectsEachField` | src/textnode.py:17-21 | a different text, a different kind, or a missing url against a given one makes two spans unequal |
| `TextNodes.ReprSeparatesKinds` | src/textnode.py:24-25 | two spans that differ only in kind have different `repr` strings |
| `TextNodes.ReprConflatesAbsentUrl` | src/textnode.py:24-25 | `repr` does not determine the span: an absent url and the url `"None"` print alike though the spans are unequal |
| `TextNodes.EqualsExamples` | src/test_textnode.py:6-31 | the equal and unequal pairs of the unit tests |
| `TextNodes.ReprExample` | src/test_textnode.py:41-45 | `repr` of the tested span is `TextNode(This is a text node, n_text, https://www.boot.dev)` |
| `HtmlNodes.NewHtmlNodeDefaults` | src/htmlnode.py:11-15 | the base constructor stores tag and value unchanged, stores given children and props unchanged, and replaces absent children by `[]` and absent props by `{}` |
| `HtmlNodes.BaseNeverRenders` | src/htmlnode.py:17-19 | `to_html` of a plain `HTMLNode` always raises `NotImplementedError` |
| `HtmlNodes.AttributeStrings` | src/htmlnode.py:25 | one `key="value"` string per attribute, same count, same order |
| `HtmlNodes.PropsToHtmlIsSpaceLed` | src/htmlnode.py:21-25 | `props_to_html` equals the reference rendering: each `key="value"` preceded by one space, in insertion order, unescaped |
| `HtmlNodes.PropsToHtmlPreservesOrder` | src/htmlnode.py:21-25 | empty props give `""` and only they do; other props start with a space; the props of a concatenation render as the concatenation of the renderings |
| `HtmlNodes.NewLeafNode` | src/htmlnode.py:35-38 | the leaf constructor fails with `ValueError("All leaf nodes must have a value")` exactly when the value is absent or empty, and otherwise stores tag, value and defaulted props |
| `HtmlNodes.LeafWithoutTagIsRawText` | src/htmlnode.py:50-54 | a leaf without a tag renders as its value alone, whatever its props |
| `HtmlNodes.LeafWithTagIsWrapped` | src/htmlnode.py:50-55 | a leaf with a tag renders as `<tag attrs>value</tag>` |
| `HtmlNodes.NewParentNode` | src/htmlnode.py:62-63 | the parent constructor never fails, stores the tag as given (absent too), always holds a children list, and keeps constructedness of its children |
| `HtmlNodes.ParentTagCheckedAtRender` | src/htmlnode.py:62-67 | a parent built without a tag exists, and rendering it fails with `ValueError("invalid parent node: no tag")` |
| `HtmlNodes.ParentWithoutChildrenIsEmptyElement` | src/htmlnode.py:63-72 | a parent built with `children=None` never meets the "must have children" error (the defaulting of line 14 runs first) and renders as `<tag attrs></tag>` |
| `HtmlNodes.ChildrenToHtmlSucceeds` | src/htmlnode.py:71 | the children render iff every child renders, and then to exactly the children's outputs in order |
| `HtmlNodes.FirstFailingChildDecides` | src/htmlnode.py:71 | when child `k` is the first to fail, rendering the children fails with child `k`'s error |
| `HtmlNodes.FailureComesFromAChild` | src/htmlnode.py:71 | every failure of the children is the failure of some child |
| `HtmlNodes.ParentConcatenatesChildren` | src/htmlnode.py:71-72 | a parent whose children render renders as `<tag attrs>` + the children's outputs concatenated left to right + `</tag>` |
| `HtmlNodes.ParentFailsWithFirstFailingChild` | src/htmlnode.py:65-72 | a tagged parent with a failing child fails with the error of the first failing child |
| `HtmlNodes.ToHtmlSucceedsIffWellFormed` | src/htmlnode.py:17-72 | rendering any tree succeeds iff the tree has no plain `HTMLNode`, no leaf without a value and no parent without tag or children list, at any depth |
| `HtmlNodes.ConstructedSkipsDeadChecks` | src/htmlnode.py:50-69 | in a tree built by the constructors, the "no value" check of line 51 and the "must have children" check of line 68 never fire, at any depth |
| `HtmlNodes.TextNodeToHtmlNode` | src/htmlnode.py:74-89 | conversion succeeds iff the text is non-empty and the kind is not an image; the result is a constructed leaf whose value is the span's text; a failure is the leaf constructor's `ValueError` |
| `HtmlNodes.ConvertedSpanRenders` | src/htmlnode.py:74-85 | plain text renders as the text; bold, italic and code as `<b>`, `<i>`, `<code>` around it; a link as `<a href="url">text</a>` |
| `HtmlNodes.ImageSpanNeverConverts` | src/htmlnode.py:86-87 | every image span fails to convert with `ValueError("All leaf nodes must have a value")` |
| `HtmlNodes.TextNodeToHtmlNodeIntended` | src/htmlnode.py:74-89 | the corrected converter agrees with the original on every non-image kind and converts every image span |
| `HtmlNodes.IntendedImageRenders` | src/htmlnode.py:86-87 | the corrected image leaf renders as `<img src="url" alt="text"></img>` |
| `HtmlNodeExamples.AnchorPropsExample` | src/test_htmlnode.py:6-18 | `href` and `target` render as ` href="…" target="…"`, in that order |
| `HtmlNodeExamples.LeafExamples` | src/test_htmlnode.py:48-58 | an empty value is rejected; a `p` leaf renders as `<p>text</p>`; a tagless leaf as its text |
| `HtmlNodeExamples.AnchorLeafExample` | src/test_htmlnode.py:60-62 | an anchor leaf with two attributes renders as `<a href="…" target="…">text</a>` |
| `HtmlNodeExamples.ParentWithChildExample` | src/test_htmlnode.py:66-69 | `<div><span>text</span></div>` |
| `HtmlNodeExamples.ParentWithGrandchildExample` | src/test_htmlnode.py:71-78 | `<div><span><b>text</b></span></div>` |
| `HtmlNodeExamples.ParentWithManyChildrenExample` | src/test_htmlnode.py:97-125 | bold, plain, italic and plain children render side by side inside `<tag>…</tag>`, for the paragraph and the heading test alike |
| `HtmlNodeExamples.ConverterExample` | src/test_htmlnode.py:127-132 | a plain span converts to a leaf without a tag whose value is the span's text |

## Left out

- `HTMLNode.__repr__` and `LeafNode.__repr__` (src/htmlnode.py:28-31, 57-58): they print Python lists and dicts with the interpreter's own formatting.
- `src/main.py` and the module-level demo at the end of `src/htmlnode.py`: script-level construction followed by `print` (I/O).
- The `case _` branch of `text_node_to_html_node` and its `ValueError("Invalid text_type: …")`: `TextType` is a closed datatype here, so only a span whose `text_type` is not a `TextType` member (Python does not enforce the annotation) could reach it, and such spans are not modelled.
- Duck typing: tags, values, texts and urls are strings, props values are strings, `text_type` is a `TextType` member, and children are `Node`s; Python would accept any object (and any object with `to_html` as a child).
- Python's recursion limit: `ParentNode.to_html` recurses once per level of the tree, so a tree some hundreds of levels deep raises `RecursionError` in Python; the model has no depth limit, and `ToHtmlSucceedsIffWellFormed` speaks of trees of any depth.
- Aliasing: `HTMLNode.__init__` stores the caller's own list and dict, so mutating them after construction changes what `to_html` renders; the model's nodes are immutable values and do not capture this sharing.
- `TextNode.__eq__` against an object that is not a `TextNode` (Python raises `AttributeError`).
- The `children` attribute of a `LeafNode` (always `[]`) and the `value` attribute of a `ParentNode` (always `None`) are not stored: nothing reads them.
- HtmlNodes.TextNodeToHtmlNode: for links and images it stores `str(url)` in the props, where Python stores the url itself, possibly `None`; the rendered attribute (`href="None"` for an absent url) is the same.

## Findings

| source | as written | input that shows it | evidently intended | confidence | as-written member | corrected member |
|---|---|---|---|---|---|---|
| src/htmlnode.py:86-87 | the image row builds `LeafNode(tag="img", value="", …)`, and the leaf constructor rejects every empty value (lines 36-37), so converting an image always raises `ValueError` | `TextNode("alt text", TextType.IMAGES, "http://img")` | an `img` leaf with an empty value and props `src`, `alt`, rendering as `<img src="http://img" alt="alt text"></img>` | likely; not executed | `HtmlNodes.ImageSpanNeverConverts` | `HtmlNodes.TextNodeToHtmlNodeIntended` |
