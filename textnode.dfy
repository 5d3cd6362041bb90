/** Styled text spans (`textnode.py`): the kind of a span and the span record itself. */
module TextNodes {
  import opened Wrappers
  import Builtins

  /** The six kinds of span (the `TextType` enum). */
  datatype TextType = NormalText | BoldText | ItalicText | CodeText | Links | Images {

    /** The enum member's string value (`TextType.X.value`). */
    function Value(): string {
      match this
      case NormalText => "n_text"
      case BoldText => "b_text"
      case ItalicText => "i_text"
      case CodeText => "c_text"
      case Links => "link"
      case Images => "image"
    }
  }

  /** Distinct members carry distinct string values, so `.value` identifies the member. */
  lemma ValueIdentifiesMember(a: TextType, b: TextType)
    ensures a.Value() == b.Value() <==> a == b
  {
  }

  /**
   * A span of text with its kind and an optional url. The datatype constructor is
   * `TextNode(text, text_type, url=None)`: it stores its three arguments unchanged,
   * and a caller that omits the url passes `None`.
   */
  datatype TextNode = TextNode(text: string, textType: TextType, url: Option<string>)

  /** `TextNode.__eq__`: field-by-field comparison. */
  predicate Equals(a: TextNode, b: TextNode) {
    a.text == b.text && a.textType == b.textType && a.url == b.url
  }

  /** `__eq__` is exactly structural equality of the three fields. */
  lemma EqualsIsStructural(a: TextNode, b: TextNode)
    ensures Equals(a, b) <==> a == b
  {
  }

  /** `__eq__` is reflexive, symmetric and transitive. */
  lemma EqualsIsEquivalence(a: TextNode, b: TextNode, c: TextNode)
    ensures Equals(a, a)
    ensures Equals(a, b) ==> Equals(b, a)
    ensures Equals(a, b) && Equals(b, c) ==> Equals(a, c)
  {
  }

  /** A node differing in text, in kind or in url (present or absent) is not equal. */
  lemma EqualsDetectsEachField(a: TextNode, b: TextNode)
    ensures a.text != b.text ==> !Equals(a, b)
    ensures a.textType != b.textType ==> !Equals(a, b)
    ensures a.url.None? && b.url.Some? ==> !Equals(a, b)
  {
  }

  /** `TextNode.__repr__`: `TextNode(<text>, <kind value>, <url>)`, with `None` for no url. */
  function Repr(n: TextNode): string {
    "TextNode(" + n.text + ", " + n.textType.Value() + ", " + Builtins.Str(n.url) + ")"
  }

  /** Two spans that differ only in kind have different representations. */
  lemma {:induction false} ReprSeparatesKinds(a: TextNode, b: TextNode)
    requires a.text == b.text && a.url == b.url && a.textType != b.textType
    ensures Repr(a) != Repr(b)
  {
    var prefix := "TextNode(" + a.text + ", ";
    var suffix := ", " + Builtins.Str(a.url) + ")";
    var va, vb := a.textType.Value(), b.textType.Value();
    assert Repr(a) == prefix + va + suffix;
    assert Repr(b) == prefix + vb + suffix;
    if |va| == |vb| {
      assert va[0] != vb[0];
      assert Repr(a)[|prefix|] == va[0];
      assert Repr(b)[|prefix|] == vb[0];
    } else {
      assert |Repr(a)| != |Repr(b)|;
    }
  }

  /**
   * The representation does not determine the span: an absent url and the url
   * `"None"` print the same, although the two spans are not equal.
   */
  lemma ReprConflatesAbsentUrl(text: string, kind: TextType)
    ensures Repr(TextNode(text, kind, None)) == Repr(TextNode(text, kind, Some("None")))
    ensures !Equals(TextNode(text, kind, None), TextNode(text, kind, Some("None")))
  {
  }

  /** The equality cases exercised by the unit tests of `textnode.py`. */
  lemma EqualsExamples()
    ensures Equals(TextNode("This is a text node", BoldText, None), TextNode("This is a text node", BoldText, None))
    ensures !Equals(TextNode("This is a text node", NormalText, None), TextNode("This is a different node", NormalText, None))
    ensures !Equals(TextNode("This is a text node", ItalicText, None), TextNode("This is a different node", NormalText, None))
    ensures !Equals(TextNode("This is a text node", BoldText, None), TextNode("This is a text node", BoldText, Some("http://0.0.0.0:8888/")))
  {
  }

  /** The representation checked by the unit tests of `textnode.py`. */
  lemma ReprExample()
    ensures Repr(TextNode("This is a text node", NormalText, Some("https://www.boot.dev")))
         == "TextNode(This is a text node, n_text, https://www.boot.dev)"
  {
    // Literal concatenations are checked one join at a time.
    assert "TextNode(" + "This is a text node" == "TextNode(This is a text node";
    assert "TextNode(This is a text node" + ", " == "TextNode(This is a text node, ";
    assert "TextNode(This is a text node, " + "n_text" == "TextNode(This is a text node, n_text";
    assert "TextNode(This is a text node, n_text" + ", " == "TextNode(This is a text node, n_text, ";
    assert "TextNode(This is a text node, n_text, " + "https://www.boot.dev"
        == "TextNode(This is a text node, n_text, https://www.boot.dev";
  }
}
