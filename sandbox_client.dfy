/**
 * The keyed sandboxes: `SandBox` runs a script in a hidden page-level iframe, `HTMLSandBox` runs markup in an
 * iframe of its own inside a container. Each instance draws a seed, registers one window `message` listener that
 * passes on only console records carrying that seed, and bakes the same seed into the bootstrap it injects.
 */
module SandboxClient {
  import opened Wrappers
  import opened Dom
  import opened ConsoleShim
  import opened Bootstrap

  /** The id `SandBox` uses when its options give none. */
  const DefaultFrameId: string := "sandbox-iframe"

  /** The bootstrap of a `SandBox`: its seed, and `arg.toString()` for every argument. */
  function ScriptShim(seed: Seed): Shim {
    Shim(Some(seed), PlainToString)
  }

  /** The bootstrap of an `HTMLSandBox`: its seed, and the undefined/null-safe stringifier. */
  function MarkupShim(seed: Seed): Shim {
    Shim(Some(seed), NullSafe)
  }

  // ---------------------------------------------------------------- the page-level frame

  /**
   * The frame lookup of `SandBox` as written: `querySelector(id)`, which reads a bare id as a tag name, and a
   * new hidden iframe with that id appended to the body when it finds nothing.
   */
  method AcquireFrameAsWritten(doc: Document, id: string) returns (frame: Element)
    modifies doc
    ensures old(doc.QuerySelector(id)).Some? ==> frame == old(doc.QuerySelector(id)).value && doc.body == old(doc.body)
    ensures old(doc.QuerySelector(id)).None? ==>
      fresh(frame) && frame.tag == "iframe" && frame.id == id && frame.hidden && frame.srcdoc == ""
      && doc.body == old(doc.body) + [frame]
  {
    var found := doc.QuerySelector(id);
    if found.Some? {
      frame := found.value;
    } else {
      frame := new Element("iframe");
      frame.id := id;
      frame.hidden := true;
      doc.AppendChild(frame);
    }
  }

  /** The intended lookup: the element with that id is reused, and only a page without one gets a new hidden iframe. */
  method AcquireFrame(doc: Document, id: string) returns (frame: Element)
    modifies doc
    ensures old(doc.FindById(id)).Some? ==> frame == old(doc.FindById(id)).value && doc.body == old(doc.body)
    ensures old(doc.FindById(id)).None? ==>
      fresh(frame) && frame.tag == "iframe" && frame.id == id && frame.hidden && frame.srcdoc == ""
      && doc.body == old(doc.body) + [frame]
  {
    var found := doc.FindById(id);
    if found.Some? {
      frame := found.value;
    } else {
      frame := new Element("iframe");
      frame.id := id;
      frame.hidden := true;
      doc.AppendChild(frame);
    }
  }

  /**
   * Two `SandBox`es with the default id, as written, on a page without `<sandbox-iframe>` elements: the second
   * misses the first one's frame, so the body ends with two distinct hidden iframes that both have the id.
   */
  method TwoFramesAsWritten(doc: Document) returns (first: Element, second: Element)
    requires forall e :: e in doc.body ==> e.tag != DefaultFrameId
    modifies doc
    ensures first != second && doc.body == old(doc.body) + [first, second]
    ensures first.tag == "iframe" && first.id == DefaultFrameId && first.hidden
    ensures second.tag == "iframe" && second.id == DefaultFrameId && second.hidden
  {
    first := AcquireFrameAsWritten(doc, DefaultFrameId);
    second := AcquireFrameAsWritten(doc, DefaultFrameId);
  }

  /** The same two constructions with the lookup by id: the second reuses the first one's frame. */
  method OneFrameById(doc: Document) returns (first: Element, second: Element)
    requires doc.FindById(DefaultFrameId).None?
    modifies doc
    ensures first == second && doc.body == old(doc.body) + [first]
    ensures first.tag == "iframe" && first.id == DefaultFrameId && first.hidden
  {
    ghost var before := doc.body;
    assert forall i :: 0 <= i < |before| ==> before[i].id != DefaultFrameId;
    first := AcquireFrame(doc, DefaultFrameId);
    assert forall e :: e in doc.body && e.id == DefaultFrameId ==> e == first;
    assert doc.body[|before|] == first;
    second := AcquireFrame(doc, DefaultFrameId);
  }

  class SandBox {
    const win: Window
    const seed: Seed
    const fn: Listener
    var iframe: Element

    /**
     * `new SandBox({id, callback})`, with `seed` standing for `Math.random()`. The frame is acquired by the intended
     * lookup by id (`AcquireFrame`; the lookup as written is `AcquireFrameAsWritten`). Then the seed-checking
     * listener is added.
     */
    constructor (win: Window, doc: Document, id: string, seed: Seed)
      requires win.Valid()
      modifies win, doc
      ensures this.win == win && this.seed == seed && win.Valid()
      ensures fn.filter == Keyed(seed) && !Has(old(win.listeners), fn.handle)
      ensures win.listeners == old(win.listeners) + [fn]
      ensures old(doc.FindById(id)).Some? ==> iframe == old(doc.FindById(id)).value && doc.body == old(doc.body)
      ensures old(doc.FindById(id)).None? ==>
        fresh(iframe) && iframe.tag == "iframe" && iframe.id == id && iframe.hidden && iframe.srcdoc == ""
        && doc.body == old(doc.body) + [iframe]
    {
      var frame := AcquireFrame(doc, id);
      var h := win.NewHandle();
      var l := Listener(h, Keyed(seed));
      win.AddEventListener(l);
      this.win := win;
      this.seed := seed;
      this.fn := l;
      this.iframe := frame;
    }

    /** `destory()`: removes the constructor's listener and nothing else; on an instance already torn down it changes nothing. */
    method Destroy()
      requires win.Valid()
      modifies win
      ensures win.Valid() && !Has(win.listeners, fn.handle)
      ensures win.listeners == Without(old(win.listeners), fn.handle)
      ensures !Has(old(win.listeners), fn.handle) ==> win.listeners == old(win.listeners)
    {
      if !Has(win.listeners, fn.handle) {
        WithoutKeepsOthers(win.listeners, fn.handle);
      }
      win.RemoveEventListener(fn.handle);
      assert forall i :: 0 <= i < |win.listeners| ==> win.listeners[i] in Without(old(win.listeners), fn.handle);
    }

    /** `run(jsCode)`: the frame's whole document becomes the bootstrap plus `jsCode`, replacing what ran before. */
    method Run(jsCode: string)
      modifies iframe
      ensures iframe.srcdoc == ModuleDocument(ScriptShim(seed), jsCode)
      ensures iframe.id == old(iframe.id) && iframe.hidden == old(iframe.hidden)
    {
      iframe.srcdoc := ModuleDocument(ScriptShim(seed), jsCode);
    }
  }

  class HTMLSandBox {
    const win: Window
    const seed: Seed
    const fn: Listener
    const iframe: Element

    /** `new HTMLSandBox({container, callback})`: always a fresh iframe, appended to the container, then the listener. */
    constructor (win: Window, container: Container, seed: Seed)
      requires win.Valid()
      modifies win, container
      ensures this.win == win && this.seed == seed && win.Valid()
      ensures fn.filter == Keyed(seed) && !Has(old(win.listeners), fn.handle)
      ensures win.listeners == old(win.listeners) + [fn]
      ensures fresh(iframe) && iframe.tag == "iframe" && !iframe.hidden && iframe.srcdoc == ""
      ensures container.children == old(container.children) + [iframe]
    {
      var frame := new Element("iframe");
      container.AppendChild(frame);
      var h := win.NewHandle();
      var l := Listener(h, Keyed(seed));
      win.AddEventListener(l);
      this.win := win;
      this.seed := seed;
      this.fn := l;
      this.iframe := frame;
    }

    /** `destory()`: as for `SandBox`. */
    method Destroy()
      requires win.Valid()
      modifies win
      ensures win.Valid() && !Has(win.listeners, fn.handle)
      ensures win.listeners == Without(old(win.listeners), fn.handle)
      ensures !Has(old(win.listeners), fn.handle) ==> win.listeners == old(win.listeners)
    {
      if !Has(win.listeners, fn.handle) {
        WithoutKeepsOthers(win.listeners, fn.handle);
      }
      win.RemoveEventListener(fn.handle);
      assert forall i :: 0 <= i < |win.listeners| ==> win.listeners[i] in Without(old(win.listeners), fn.handle);
    }

    /** `run(htmlCode)`: the frame's whole document becomes the bootstrap script followed by `htmlCode`. */
    method Run(htmlCode: string)
      modifies iframe
      ensures iframe.srcdoc == HtmlDocument(MarkupShim(seed), htmlCode)
      ensures iframe.id == old(iframe.id) && iframe.hidden == old(iframe.hidden)
    {
      iframe.srcdoc := HtmlDocument(MarkupShim(seed), htmlCode);
    }
  }

  // ---------------------------------------------------------------- what the seed buys

  /** A keyed listener passes a message on exactly when it is a console record with the listener's seed and an args array. */
  lemma KeyedListenerFilter(seed: Seed, d: MessageData)
    ensures React(Keyed(seed), d).Delivered? <==>
      d.Record? && d.kind == Some("console") && d.seed == Some(seed) && d.args.Some?
    ensures React(Keyed(seed), d).Delivered? ==>
      React(Keyed(seed), d).entry == LogEntry(Text.Join(d.args.value, "\n"), d.methodName)
  {
  }

  /** A page whose listeners all belong to keyed sandboxes. */
  predicate AllKeyed(ls: seq<Listener>) {
    forall i :: 0 <= i < |ls| ==> ls[i].filter.Keyed?
  }

  /**
   * On a page of keyed sandboxes, a message carrying seed s runs only the callbacks of listeners keyed to s.
   */
  lemma {:induction false} OnlyMatchingSeedDelivered(ls: seq<Listener>, d: MessageData, s: Seed, x: Delivery)
    requires AllKeyed(ls) && d.Record? && d.seed == Some(s)
    requires x in Dispatch(ls, d)
    ensures exists i :: 0 <= i < |ls| && ls[i].handle == x.handle && ls[i].filter == Keyed(s)
  {
    DispatchFromListeners(ls, d, x);
  }

  /**
   * Two sandboxes with different seeds: every message a bootstrap with `a`'s seed posts reaches `a`'s callback
   * and never `b`'s.
   */
  lemma {:induction false} OutputStaysWithItsSandbox(
    ls: seq<Listener>, a: Listener, b: Listener, shim: Shim, effects: seq<Effect>, k: nat, e: LogEntry)
    requires DistinctHandles(ls) && a in ls && b in ls && a.handle != b.handle
    requires a.filter.Keyed? && b.filter.Keyed? && a.filter.seed != b.filter.seed
    requires shim.seed == Some(a.filter.seed) && AllPostedBy(shim, effects)
    requires k < |effects| && effects[k].Post?
    ensures var d := effects[k].data;
      d.Record? && d.args.Some? && Delivery(b.handle, e) !in Dispatch(ls, d) &&
      Delivery(a.handle, LogEntry(Text.Join(d.args.value, "\n"), d.methodName)) in Dispatch(ls, d)
  {
    var d := effects[k].data;
    assert PostedBy(shim, d);
    DispatchReaches(ls, d, b.handle, e);
    var ia :| 0 <= ia < |ls| && ls[ia] == a;
    DispatchReaches(ls, d, a.handle, LogEntry(Text.Join(d.args.value, "\n"), d.methodName));
  }

  /** An `HTMLSandBox` guest runs unguarded in the markup document: its output reaches its own sandbox only. */
  lemma MarkupGuestOutputStaysWithItsSandbox(
    ls: seq<Listener>, a: Listener, b: Listener, p: GuestProgram, k: nat, e: LogEntry)
    requires DistinctHandles(ls) && a in ls && b in ls && a.handle != b.handle
    requires a.filter.Keyed? && b.filter.Keyed? && a.filter.seed != b.filter.seed
    requires var effects := Execute(MarkupShim(a.filter.seed), p).effects; k < |effects| && effects[k].Post?
    ensures var d := Execute(MarkupShim(a.filter.seed), p).effects[k].data;
      d.Record? && d.args.Some? && Delivery(b.handle, e) !in Dispatch(ls, d) &&
      Delivery(a.handle, LogEntry(Text.Join(d.args.value, "\n"), d.methodName)) in Dispatch(ls, d)
  {
    var shim := MarkupShim(a.filter.seed);
    ExecutePostedBy(shim, p);
    OutputStaysWithItsSandbox(ls, a, b, shim, Execute(shim, p).effects, k, e);
  }

  /** A `SandBox` guest runs inside the try/catch of the module document: its output reaches its own sandbox only. */
  lemma ScriptGuestOutputStaysWithItsSandbox(
    ls: seq<Listener>, a: Listener, b: Listener, p: GuestProgram, k: nat, e: LogEntry)
    requires DistinctHandles(ls) && a in ls && b in ls && a.handle != b.handle
    requires a.filter.Keyed? && b.filter.Keyed? && a.filter.seed != b.filter.seed
    requires var effects := Guarded(ScriptShim(a.filter.seed), p).effects; k < |effects| && effects[k].Post?
    ensures var d := Guarded(ScriptShim(a.filter.seed), p).effects[k].data;
      d.Record? && d.args.Some? && Delivery(b.handle, e) !in Dispatch(ls, d) &&
      Delivery(a.handle, LogEntry(Text.Join(d.args.value, "\n"), d.methodName)) in Dispatch(ls, d)
  {
    var shim := ScriptShim(a.filter.seed);
    GuardedPostedBy(shim, p);
    OutputStaysWithItsSandbox(ls, a, b, shim, Guarded(shim, p).effects, k, e);
  }

  /** A message posted without a seed (the tokenless bootstrap's) never reaches a keyed sandbox. */
  lemma UnseededIgnored(seed: Seed, d: MessageData)
    requires d.Record? && d.seed.None?
    ensures React(Keyed(seed), d) == Ignored
  {
  }
}
