/**
 * `remarkCustomBlocks(base)`: every fenced `code` node whose language is `mermaid`, `html-box`, `iframe` or
 * `inline` becomes a raw `html` node holding the matching widget tag; any other node is left alone.
 */
module RemarkCustomBlocks {
  import opened Wrappers
  import opened Text
  import UriComponent

  // Each template, cut at its attribute value and at the quote that closes it.
  const Quote: string := "\""
  const MermaidOpen: string := "<mermaid-viewer data-hidden code=\""
  const MermaidTail: string := ">\n           </mermaid-viewer>"
  const HtmlBoxOpen: string := "\n\t\t\t\t\t<html-box code=\""
  const HtmlBoxTail: string := ">\n\t\t\t\t\t</html-box>\n\t\t\t\t"
  const IframeOpen: string := "\n\t\t\t\t\t<iframe src=\""
  const IframeTail: string := ">\n\t\t\t\t\t</iframe>\n\t\t\t\t"
  const InlineOpen: string := "\n          <inline-preview code=\""
  const InlineSlot: string := ">\n            <div slot=\"preview\">"
  const InlineClose: string := "</div>\n          </inline-preview>\n        "

  /** `node.lang || ''`. */
  function LangOf(lang: Option<string>): string {
    lang.GetOr("")
  }

  /** The languages with a rewrite. */
  predicate IsCustom(l: string) {
    l == "mermaid" || l == "html-box" || l == "iframe" || l == "inline"
  }

  /** The opening of the widget tag up to its attribute value, for each custom language. */
  function Opening(l: string): string {
    if l == "mermaid" then MermaidOpen
    else if l == "html-box" then HtmlBoxOpen
    else if l == "iframe" then IframeOpen
    else InlineOpen
  }

  /** The new `html` value for a code node, or `None` when the node is left unchanged. */
  function CodeBlockHtml(base: string, lang: Option<string>, value: string): Option<string> {
    var l := LangOf(lang);
    var enc := UriComponent.Encode(value);
    if l == "mermaid" then Some(MermaidOpen + enc + Quote + MermaidTail)
    else if l == "html-box" then Some(HtmlBoxOpen + enc + Quote + HtmlBoxTail)
    else if l == "iframe" then Some(IframeOpen + (base + value) + Quote + IframeTail)
    else if l == "inline" then Some(InlineOpen + enc + Quote + (InlineSlot + value + InlineClose))
    else None
  }

  predicate StartsWithText(s: string, p: string) {
    |p| <= |s| && s[..|p|] == p
  }

  lemma OpensWith(a: string, b: string, c: string, d: string)
    ensures StartsWithText(a + b + c + d, a)
  {
    assert (a + b + c + d)[..|a|] == a;
  }

  /** A node is rewritten exactly for the four custom languages, and its new value opens that language's tag. */
  lemma CodeBlockHtmlShape(base: string, lang: Option<string>, value: string)
    ensures var r := CodeBlockHtml(base, lang, value);
      (r.Some? <==> IsCustom(LangOf(lang))) && (r.Some? ==> StartsWithText(r.value, Opening(LangOf(lang))))
  {
    var l := LangOf(lang);
    var enc := UriComponent.Encode(value);
    if l == "mermaid" {
      OpensWith(MermaidOpen, enc, Quote, MermaidTail);
    } else if l == "html-box" {
      OpensWith(HtmlBoxOpen, enc, Quote, HtmlBoxTail);
    } else if l == "iframe" {
      OpensWith(IframeOpen, base + value, Quote, IframeTail);
    } else if l == "inline" {
      OpensWith(InlineOpen, enc, Quote, InlineSlot + value + InlineClose);
    }
  }

  /** The attribute value after the tag's opening, as an HTML parser reads it: up to the next quote. */
  function AttributeValue(html: string, l: string): string
    requires StartsWithText(html, Opening(l))
  {
    TakeUntilQuote(html[|Opening(l)|..])
  }

  /** A quote-free value between an opening and a quote is exactly what the attribute reads back. */
  lemma QuotedValue(open: string, v: string, rest: string)
    requires '"' !in v
    ensures var html := open + v + Quote + rest; StartsWithText(html, open) && TakeUntilQuote(html[|open|..]) == v
  {
    var html := open + v + Quote + rest;
    assert html[..|open|] == open;
    assert html[|open|..] == v + "\"" + rest;
    TakeUntilQuoteOf(v, rest);
  }

  lemma EncodedHasNoQuote(value: string)
    ensures '"' !in UriComponent.Encode(value)
  {
    var enc := UriComponent.Encode(value);
    UriComponent.EncodeIsAttributeSafe(value);
    forall i | 0 <= i < |enc| ensures enc[i] != '"' {
      assert enc[i] !in "\"<>& \t\n\r";
    }
  }

  /**
   * For `mermaid`, `html-box` and `inline`, the `code` attribute is the percent-encoded source: it holds no quote,
   * so the attribute ends where the template ends it, and `decodeURIComponent` of it gives back the code block.
   */
  lemma EncodedAttributeRoundTrip(base: string, lang: Option<string>, value: string)
    requires LangOf(lang) == "mermaid" || LangOf(lang) == "html-box" || LangOf(lang) == "inline"
    ensures var r := CodeBlockHtml(base, lang, value);
      r.Some? && StartsWithText(r.value, Opening(LangOf(lang)))
      && AttributeValue(r.value, LangOf(lang)) == UriComponent.Encode(value)
      && UriComponent.Decode(AttributeValue(r.value, LangOf(lang))) == Some(value)
  {
    var enc := UriComponent.Encode(value);
    EncodedHasNoQuote(value);
    UriComponent.DecodeEncode(value);
    if LangOf(lang) == "mermaid" {
      QuotedValue(MermaidOpen, enc, MermaidTail);
    } else if LangOf(lang) == "html-box" {
      QuotedValue(HtmlBoxOpen, enc, HtmlBoxTail);
    } else {
      QuotedValue(InlineOpen, enc, InlineSlot + value + InlineClose);
    }
  }

  /** `iframe` concatenates without encoding: the `src` a browser reads is `base + value` exactly when neither holds a quote. */
  lemma IframeSrcIntact(base: string, value: string)
    ensures var r := CodeBlockHtml(base, Some("iframe"), value);
      r.Some? && StartsWithText(r.value, IframeOpen)
      && (AttributeValue(r.value, "iframe") == base + value <==> '"' !in base + value)
  {
    var src := base + value;
    var r := CodeBlockHtml(base, Some("iframe"), value).value;
    assert r[..|IframeOpen|] == IframeOpen;
    if '"' !in src {
      QuotedValue(IframeOpen, src, IframeTail);
    }
  }

  lemma Slot(a: string, b: string, c: string, d: string, v: string, e: string)
    ensures var r := a + b + c + (d + v + e); var k := |a + b + c + d|; k + |v| <= |r| && r[k..k + |v|] == v
  {
    var r := a + b + c + (d + v + e);
    var k := |a + b + c + d|;
    assert r == (a + b + c + d) + v + e;
    assert r[k..k + |v|] == v;
  }

  /** `inline` also copies the raw source, unescaped, into the preview slot. */
  lemma InlineSlotIsRaw(base: string, value: string)
    ensures var r := CodeBlockHtml(base, Some("inline"), value).value;
      var k := |InlineOpen + UriComponent.Encode(value) + Quote + InlineSlot|;
      k + |value| <= |r| && r[k..k + |value|] == value
  {
    Slot(InlineOpen, UriComponent.Encode(value), Quote, InlineSlot, value, InlineClose);
  }

  // ---------------------------------------------------------------- the tree walk

  /** A mdast node as the plugin sees it: `type`, `lang` and `value`. */
  class MdNode {
    var kind: string
    const lang: Option<string>
    var value: string

    constructor (kind: string, lang: Option<string>, value: string)
      ensures this.kind == kind && this.lang == lang && this.value == value
    {
      this.kind := kind;
      this.lang := lang;
      this.value := value;
    }
  }

  /** How the walk leaves one node: a `code` node with a custom language rewritten, any other node as it was. */
  predicate Visited(base: string, lang: Option<string>, kind0: string, value0: string, kind1: string, value1: string) {
    var r := CodeBlockHtml(base, lang, value0);
    if kind0 == "code" && r.Some? then kind1 == "html" && value1 == r.value
    else kind1 == kind0 && value1 == value0
  }

  /** The visitor: a code node with a custom language becomes an `html` node, in place. */
  method Rewrite(base: string, node: MdNode)
    requires node.kind == "code"
    modifies node
    ensures Visited(base, node.lang, old(node.kind), old(node.value), node.kind, node.value)
    ensures CodeBlockHtml(base, node.lang, old(node.value)).Some? ==>
      node.kind == "html" && node.value == CodeBlockHtml(base, node.lang, old(node.value)).value
    ensures CodeBlockHtml(base, node.lang, old(node.value)).None? ==>
      node.kind == old(node.kind) && node.value == old(node.value)
  {
    var html := CodeBlockHtml(base, node.lang, node.value);
    if html.Some? {
      node.kind := "html";
      node.value := html.value;
    }
  }

  /** `visit(tree, 'code', …)` over the nodes of the tree in document order: each `code` node is rewritten once. */
  method Transform(base: string, nodes: seq<MdNode>)
    requires forall i, j :: 0 <= i < j < |nodes| ==> nodes[i] != nodes[j]
    modifies set n | n in nodes
    ensures forall i :: 0 <= i < |nodes| ==>
      Visited(base, nodes[i].lang, old(nodes[i].kind), old(nodes[i].value), nodes[i].kind, nodes[i].value)
  {
    for k := 0 to |nodes|
      invariant forall i :: 0 <= i < k ==>
        Visited(base, nodes[i].lang, old(nodes[i].kind), old(nodes[i].value), nodes[i].kind, nodes[i].value)
      invariant forall i :: k <= i < |nodes| ==> nodes[i].kind == old(nodes[i].kind) && nodes[i].value == old(nodes[i].value)
    {
      if nodes[k].kind == "code" {
        Rewrite(base, nodes[k]);
      }
    }
  }
}
