/**
 * The diagram widget (`MermaidViewer`). `connectedCallback` runs in two halves around the renderer's promise:
 * the first checks the guard, decodes the `code` attribute and shows a placeholder; the second shows the SVG
 * or the renderer's error. The renderer's outcome is an input.
 */
module MermaidViewer {
  import opened Wrappers
  import UriComponent

  const LoadingHtml: string := "<div style=\"color: #888; padding: 10px;\">Loading diagram...</div>"

  function ErrorHtml(msg: string): string {
    "<pre style=\"color: red; padding: 10px; border: 1px solid red;\">Mermaid Error: " + msg + "</pre>"
  }

  /** `!codeEncoded` holds for a missing attribute and for the empty string. */
  predicate Falsy(attr: Option<string>) {
    attr.None? || attr.value == ""
  }

  class Viewer {
    const code: Option<string>
    var dataHidden: bool
    var rendered: bool
    var content: string

    /** A viewer as the page's markup creates it, with its `code` and `data-hidden` attributes and its content. */
    constructor (code: Option<string>, dataHidden: bool, content: string)
      ensures this.code == code && this.dataHidden == dataHidden && this.content == content && !rendered
    {
      this.code := code;
      this.dataHidden := dataHidden;
      this.content := content;
      rendered := false;
    }

    /**
     * The part of `connectedCallback` before the renderer is awaited. It returns the decoded diagram source handed to
     * the renderer, or `None` when the call ends early: already rendered, no attribute, or an attribute that
     * `decodeURIComponent` rejects (outside the try, so the content stays as it was).
     */
    method ConnectedCallback() returns (job: Option<string>)
      modifies this
      ensures rendered == old(rendered) && dataHidden == old(dataHidden)
      ensures old(rendered) || Falsy(code) ==> job.None? && content == old(content)
      ensures !old(rendered) && !Falsy(code) ==> job == UriComponent.Decode(code.value)
      ensures job.None? ==> content == old(content)
      ensures job.Some? ==> content == LoadingHtml
    {
      job := None;
      if rendered {
        return;
      }
      if Falsy(code) {
        return;
      }
      var decoded := UriComponent.Decode(code.value);
      if decoded.None? {
        return;
      }
      content := LoadingHtml;
      job := decoded;
    }

    /** The part after the renderer settles: the SVG and done, or the error block and a later connect retries. */
    method Settle(outcome: Result<string>)
      modifies this
      ensures outcome.Ok? ==> content == outcome.value && rendered && !dataHidden
      ensures outcome.Err? ==>
        content == ErrorHtml(outcome.error) && rendered == old(rendered) && dataHidden == old(dataHidden)
    {
      if outcome.Ok? {
        content := outcome.value;
        rendered := true;
        dataHidden := false;
      } else {
        content := ErrorHtml(outcome.error);
      }
    }
  }

  /** A rendered diagram stays as it is: connecting again neither re-renders nor touches the content. */
  method RenderedIsFinal(v: Viewer) returns (again: Option<string>)
    requires v.rendered
    modifies v
    ensures again.None? && v.content == old(v.content) && v.rendered
  {
    again := v.ConnectedCallback();
  }

  /** After a failed render, the next connect starts over from the placeholder. */
  method ErrorRetries(v: Viewer, msg: string) returns (again: Option<string>)
    requires !v.rendered && v.code.Some? && v.code.value != "" && UriComponent.Decode(v.code.value).Some?
    modifies v
    ensures v.content == LoadingHtml && again == UriComponent.Decode(v.code.value) && !v.rendered
  {
    var first := v.ConnectedCallback();
    v.Settle(Err(msg));
    again := v.ConnectedCallback();
  }
}
