/**
 * The older, tokenless `SandBox`: the same hidden page-level iframe and bootstrap, but no seed. Its listener passes
 * on every console record on the page, so two of them on one page each receive the other's output.
 */
module SandboxLegacy {
  import opened Wrappers
  import opened Dom
  import opened ConsoleShim
  import opened Bootstrap
  import SandboxClient

  /** The tokenless bootstrap: no seed in the posted record, `arg.toString()` for every argument. */
  const LegacyShim: Shim := Shim(None, PlainToString)

  class SandBox {
    const win: Window
    const fn: Listener
    var iframe: Element

    /** `new SandBox({id, callback})`: the frame as for the keyed `SandBox`, then a listener that checks only the kind. */
    constructor (win: Window, doc: Document, id: string)
      requires win.Valid()
      modifies win, doc
      ensures this.win == win && win.Valid()
      ensures fn.filter == AnyConsole && !Has(old(win.listeners), fn.handle)
      ensures win.listeners == old(win.listeners) + [fn]
      ensures old(doc.FindById(id)).Some? ==> iframe == old(doc.FindById(id)).value && doc.body == old(doc.body)
      ensures old(doc.FindById(id)).None? ==>
        fresh(iframe) && iframe.tag == "iframe" && iframe.id == id && iframe.hidden && iframe.srcdoc == ""
        && doc.body == old(doc.body) + [iframe]
    {
      var frame := SandboxClient.AcquireFrame(doc, id);
      var h := win.NewHandle();
      var l := Listener(h, AnyConsole);
      win.AddEventListener(l);
      this.win := win;
      this.fn := l;
      this.iframe := frame;
    }

    /** `destory()`: removes the constructor's listener; a second call changes nothing. */
    method Destroy()
      requires win.Valid()
      modifies win
      ensures win.Valid() && !Has(win.listeners, fn.handle)
      ensures win.listeners == Without(old(win.listeners), fn.handle)
      ensures !Has(old(win.listeners), fn.handle) ==> win.listeners == old(win.listeners)
    {
      if !Has(win.listeners, fn.handle) {
        WithoutKeepsOthers(win.listeners, fn.handle);
      }
      win.RemoveEventListener(fn.handle);
      assert forall i :: 0 <= i < |win.listeners| ==> win.listeners[i] in Without(old(win.listeners), fn.handle);
    }

    /** `run(jsCode)`: the frame's whole document becomes the tokenless bootstrap plus `jsCode` in try/catch. */
    method Run(jsCode: string)
      modifies iframe
      ensures iframe.srcdoc == ModuleDocument(LegacyShim, jsCode)
      ensures iframe.id == old(iframe.id) && iframe.hidden == old(iframe.hidden)
    {
      iframe.srcdoc := ModuleDocument(LegacyShim, jsCode);
    }
  }

  /** The tokenless listener passes on every console record with an args array, whatever its origin or seed. */
  lemma TokenlessListenerFilter(d: MessageData)
    ensures React(AnyConsole, d).Delivered? <==> d.Record? && d.kind == Some("console") && d.args.Some?
    ensures d.Record? && d.kind != Some("console") ==> React(AnyConsole, d) == Ignored
    ensures React(AnyConsole, d).Delivered? ==>
      React(AnyConsole, d).entry == LogEntry(Text.Join(d.args.value, "\n"), d.methodName)
  {
  }

  /** What the tokenless bootstrap posts carries no seed. */
  lemma LegacyPostsUnseeded(p: GuestProgram, k: nat)
    requires k < |Guarded(LegacyShim, p).effects| && Guarded(LegacyShim, p).effects[k].Post?
    ensures Guarded(LegacyShim, p).effects[k].data.Record? && Guarded(LegacyShim, p).effects[k].data.seed.None?
  {
    GuardedPostedBy(LegacyShim, p);
  }

  /**
   * Cross-talk: whichever sandbox's guest posts a console message, the callback of every tokenless sandbox on the
   * page runs with it, keyed and tokenless guests alike. Contrast `SandboxClient.ScriptGuestOutputStaysWithItsSandbox`.
   */
  lemma {:induction false} EveryTokenlessSandboxHearsEveryGuest(
    ls: seq<Listener>, b: Listener, shim: Shim, p: GuestProgram, k: nat)
    requires b in ls && b.filter == AnyConsole
    requires k < |Guarded(shim, p).effects| && Guarded(shim, p).effects[k].Post?
    ensures var d := Guarded(shim, p).effects[k].data;
      d.Record? && d.args.Some? && Delivery(b.handle, LogEntry(Text.Join(d.args.value, "\n"), d.methodName)) in Dispatch(ls, d)
  {
    GuardedPostedBy(shim, p);
    var d := Guarded(shim, p).effects[k].data;
    var i :| 0 <= i < |ls| && ls[i] == b;
    DispatchReaches(ls, d, b.handle, LogEntry(Text.Join(d.args.value, "\n"), d.methodName));
  }
}
