/**
 * The slice of the browser the sandboxes program against: elements that can host a document (iframes),
 * the page body, a container element, and the page-wide list of `message` listeners on `window`.
 * A message event's payload is a record; each listener is a filter over records plus the handle
 * `removeEventListener` uses to find it again.
 */
module Dom {
  import opened Wrappers
  import opened Text

  /** The correlation token of a sandbox instance; only compared for equality. */
  type Seed = nat

  // ---------------------------------------------------------------- elements

  class Element {
    const tag: string
    var id: string
    var hidden: bool
    var srcdoc: string

    /** `document.createElement(tag)`. */
    constructor (tag: string)
      ensures this.tag == tag && id == "" && !hidden && srcdoc == ""
    {
      this.tag := tag;
      id := "";
      hidden := false;
      srcdoc := "";
    }
  }

  /** An element that other elements are appended to (the playground's `#html-container`). */
  class Container {
    var children: seq<Element>

    constructor ()
      ensures children == []
    {
      children := [];
    }

    method AppendChild(e: Element)
      modifies this
      ensures children == old(children) + [e]
    {
      children := children + [e];
    }
  }

  /** The first element of es whose id is `id`. */
  function FirstWithId(es: seq<Element>, id: string): (r: Option<Element>)
    reads set e | e in es
    ensures r.Some? <==> exists i :: 0 <= i < |es| && es[i].id == id
    ensures r.Some? ==> r.value in es && r.value.id == id
  {
    if es == [] then None
    else if es[0].id == id then Some(es[0])
    else FirstWithId(es[1..], id)
  }

  /** How a simple selector matches an element: `#x` by id, anything else as a type (tag-name) selector. */
  predicate SelectorMatches(selector: string, tag: string, id: string) {
    if |selector| > 0 && selector[0] == '#' then id == selector[1..] else tag == selector
  }

  function FirstMatching(es: seq<Element>, selector: string): (r: Option<Element>)
    reads set e | e in es
    ensures r.Some? <==> exists i :: 0 <= i < |es| && SelectorMatches(selector, es[i].tag, es[i].id)
    ensures r.Some? ==> r.value in es && SelectorMatches(selector, r.value.tag, r.value.id)
  {
    if es == [] then None
    else if SelectorMatches(selector, es[0].tag, es[0].id) then Some(es[0])
    else FirstMatching(es[1..], selector)
  }

  /** The page body, as the ordered list of the elements appended to it. */
  class Document {
    var body: seq<Element>

    constructor ()
      ensures body == []
    {
      body := [];
    }

    /** `document.querySelector(selector)` restricted to the body's elements and to simple selectors. */
    function QuerySelector(selector: string): (r: Option<Element>)
      reads this, set e | e in body
      ensures r.Some? <==> exists i :: 0 <= i < |body| && SelectorMatches(selector, body[i].tag, body[i].id)
      ensures r.Some? ==> r.value in body && SelectorMatches(selector, r.value.tag, r.value.id)
    {
      FirstMatching(body, selector)
    }

    /** The element with the given id (`document.getElementById(id)`), restricted to the body's elements. */
    function FindById(id: string): (r: Option<Element>)
      reads this, set e | e in body
      ensures r.Some? <==> exists i :: 0 <= i < |body| && body[i].id == id
      ensures r.Some? ==> r.value in body && r.value.id == id
    {
      FirstWithId(body, id)
    }

    method AppendChild(e: Element)
      modifies this
      ensures body == old(body) + [e]
    {
      body := body + [e];
    }
  }

  /**
   * `querySelector('sandbox-iframe')` reads its argument as a tag name: it misses an iframe whose id is
   * 'sandbox-iframe' (when nothing in the body is a `<sandbox-iframe>` element), while a lookup by id finds it.
   */
  lemma QuerySelectorMissesOwnFrame(doc: Document, frame: Element)
    requires frame in doc.body && frame.tag == "iframe" && frame.id == "sandbox-iframe"
    requires forall e :: e in doc.body ==> e.tag != "sandbox-iframe"
    ensures doc.QuerySelector("sandbox-iframe") == None
    ensures doc.FindById("sandbox-iframe").Some?
  {
  }

  // ---------------------------------------------------------------- message events

  /**
   * `event.data` of a window `message` event. Anything that is not an object (or is null) has no `type`;
   * a field that is missing, or not of the expected type, is None.
   */
  datatype MessageData =
    | NotARecord
    | Record(kind: Option<string>, methodName: Option<string>, seed: Option<Seed>, args: Option<seq<string>>)

  /** The argument a sandbox passes to its callback: `{message, type}`. */
  datatype LogEntry = LogEntry(message: string, kind: Option<string>)

  /** What a sandbox's listener checks: the console kind and the instance's seed, or (tokenless variant) the kind alone. */
  datatype Filter = Keyed(seed: Seed) | AnyConsole

  datatype Listener = Listener(handle: nat, filter: Filter)

  /** What one listener does with one message: nothing, call its callback, or throw (no `args` array to join). */
  datatype Reaction = Ignored | Delivered(entry: LogEntry) | Threw

  predicate Accepts(f: Filter, d: MessageData) {
    d.Record? && d.kind == Some("console") && (f.Keyed? ==> d.seed == Some(f.seed))
  }

  /** One listener run on one message. */
  function React(f: Filter, d: MessageData): Reaction {
    if !Accepts(f, d) then Ignored
    else if d.args.None? then Threw
    else Delivered(LogEntry(Join(d.args.value, "\n"), d.methodName))
  }

  /** A callback invocation: the listener whose callback ran, and its argument. */
  datatype Delivery = Delivery(handle: nat, entry: LogEntry)

  /** The callbacks one message event runs, in the order the listeners were added. */
  function Dispatch(ls: seq<Listener>, d: MessageData): seq<Delivery> {
    if ls == [] then []
    else
      (match React(ls[0].filter, d)
       case Delivered(e) => [Delivery(ls[0].handle, e)]
       case _ => [])
      + Dispatch(ls[1..], d)
  }

  /** The listener list after `removeEventListener` of the listener with handle h. */
  function Without(ls: seq<Listener>, h: nat): (r: seq<Listener>)
    ensures forall l :: l in r <==> l in ls && l.handle != h
    ensures |r| <= |ls|
  {
    if ls == [] then []
    else if ls[0].handle == h then Without(ls[1..], h)
    else [ls[0]] + Without(ls[1..], h)
  }

  predicate Has(ls: seq<Listener>, h: nat) {
    exists i :: 0 <= i < |ls| && ls[i].handle == h
  }

  predicate DistinctHandles(ls: seq<Listener>) {
    forall i, j :: 0 <= i < j < |ls| ==> ls[i].handle != ls[j].handle
  }

  // ---------------------------------------------------------------- facts about dispatch

  /** A callback runs for a message exactly when a listener with that handle accepts it and can join its args. */
  lemma {:induction false} DispatchReaches(ls: seq<Listener>, d: MessageData, h: nat, e: LogEntry)
    ensures Delivery(h, e) in Dispatch(ls, d) <==>
      exists i :: 0 <= i < |ls| && ls[i].handle == h && React(ls[i].filter, d) == Delivered(e)
  {
    if ls != [] {
      DispatchReaches(ls[1..], d, h, e);
      if Delivery(h, e) in Dispatch(ls[1..], d) {
        var i :| 0 <= i < |ls[1..]| && ls[1..][i].handle == h && React(ls[1..][i].filter, d) == Delivered(e);
        assert ls[i + 1] == ls[1..][i];
      }
      if exists i :: 0 <= i < |ls| && ls[i].handle == h && React(ls[i].filter, d) == Delivered(e) {
        var i :| 0 <= i < |ls| && ls[i].handle == h && React(ls[i].filter, d) == Delivered(e);
        if i > 0 { assert ls[1..][i - 1] == ls[i]; }
      }
    }
  }

  /** Every callback a message runs belongs to a listener in the list. */
  lemma {:induction false} DispatchFromListeners(ls: seq<Listener>, d: MessageData, x: Delivery)
    requires x in Dispatch(ls, d)
    ensures exists i :: 0 <= i < |ls| && ls[i].handle == x.handle && React(ls[i].filter, d) == Delivered(x.entry)
  {
    DispatchReaches(ls, d, x.handle, x.entry);
  }

  /** Removing a listener a second time changes nothing. */
  lemma {:induction false} WithoutIdempotent(ls: seq<Listener>, h: nat)
    ensures Without(Without(ls, h), h) == Without(ls, h)
  {
    if ls != [] { WithoutIdempotent(ls[1..], h); }
  }

  /** Removing a listener keeps the others in their order. */
  lemma {:induction false} WithoutKeepsOthers(ls: seq<Listener>, h: nat)
    requires !Has(ls, h)
    ensures Without(ls, h) == ls
  {
    if ls != [] {
      forall i | 0 <= i < |ls[1..]| ensures ls[1..][i].handle != h {
        assert ls[1..][i] == ls[i + 1];
      }
      WithoutKeepsOthers(ls[1..], h);
      assert ls[0].handle != h;
      assert [ls[0]] + ls[1..] == ls;
    }
  }

  /** Once its listener is removed, no message reaches a callback through that handle. */
  lemma NothingAfterRemoval(ls: seq<Listener>, h: nat, d: MessageData, e: LogEntry)
    ensures Delivery(h, e) !in Dispatch(Without(ls, h), d)
  {
    var r := Without(ls, h);
    forall i | 0 <= i < |r| ensures r[i].handle != h {
      assert r[i] in r;
    }
    DispatchReaches(r, d, h, e);
  }

  // ---------------------------------------------------------------- the page's listener list

  /** `window` as far as `message` listeners go. Handles stand for the closures the sandboxes create. */
  class Window {
    var listeners: seq<Listener>
    var nextHandle: nat

    ghost predicate Valid()
      reads this
    {
      DistinctHandles(listeners) && forall i :: 0 <= i < |listeners| ==> listeners[i].handle < nextHandle
    }

    constructor ()
      ensures Valid() && listeners == [] && nextHandle == 0
    {
      listeners := [];
      nextHandle := 0;
    }

    /** A handle no listener on the page has had: each arrow function a constructor builds is a new object. */
    method NewHandle() returns (h: nat)
      requires Valid()
      modifies this
      ensures Valid() && listeners == old(listeners)
      ensures h == old(nextHandle) && nextHandle == h + 1 && !Has(listeners, h)
    {
      h := nextHandle;
      nextHandle := nextHandle + 1;
    }

    /** `window.addEventListener('message', fn)`: adding a function that is already registered changes nothing. */
    method AddEventListener(l: Listener)
      requires Valid() && l.handle < nextHandle
      modifies this
      ensures Valid() && nextHandle == old(nextHandle)
      ensures listeners == if Has(old(listeners), l.handle) then old(listeners) else old(listeners) + [l]
    {
      if !Has(listeners, l.handle) {
        listeners := listeners + [l];
      }
    }

    /** `window.removeEventListener('message', fn)`: removes that function if it is registered, and nothing else. */
    method RemoveEventListener(h: nat)
      requires Valid()
      modifies this
      ensures Valid() && nextHandle == old(nextHandle)
      ensures listeners == Without(old(listeners), h)
    {
      WithoutDistinct(listeners, h);
      listeners := Without(listeners, h);
      forall i | 0 <= i < |listeners| ensures listeners[i].handle < nextHandle {
        assert listeners[i] in Without(old(listeners), h);
      }
    }

    /** One message event: every listener runs, in the order they were added; the callbacks that fire are returned. */
    method Post(d: MessageData) returns (out: seq<Delivery>)
      ensures out == Dispatch(listeners, d)
    {
      out := [];
      var i := |listeners|;
      while i > 0
        invariant 0 <= i <= |listeners|
        invariant out == Dispatch(listeners[i..], d)
      {
        i := i - 1;
        assert listeners[i..][1..] == listeners[i + 1..];
        match React(listeners[i].filter, d) {
          case Delivered(e) => out := [Delivery(listeners[i].handle, e)] + out;
          case _ =>
        }
      }
    }
  }

  /** Removal keeps distinct handles distinct. */
  lemma {:induction false} WithoutDistinct(ls: seq<Listener>, h: nat)
    requires DistinctHandles(ls)
    ensures DistinctHandles(Without(ls, h))
  {
    if ls != [] {
      var t := ls[1..];
      assert DistinctHandles(t) by {
        forall a, b | 0 <= a < b < |t| ensures t[a].handle != t[b].handle {
          assert t[a] == ls[a + 1] && t[b] == ls[b + 1];
        }
      }
      WithoutDistinct(t, h);
      if ls[0].handle != h {
        var w := Without(t, h);
        forall j | 0 <= j < |w| ensures w[j].handle != ls[0].handle {
          assert w[j] in w;
          var k :| 0 <= k < |t| && t[k] == w[j];
          assert ls[k + 1] == t[k];
        }
        var r := [ls[0]] + w;
        forall a, b | 0 <= a < b < |r| ensures r[a].handle != r[b].handle {
          assert r[b] == w[b - 1];
          if a > 0 { assert r[a] == w[a - 1]; }
        }
      }
    }
  }
}
