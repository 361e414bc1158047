/**
 * The code-playground widget (`CodePlayground`): a mount guard, a skeleton with two tabs, an HTML sandbox whose
 * forwarded console output is rendered, escaped, into a log list, and a re-run on every edit.
 */
module HtmlBox {
  import opened Wrappers
  import opened Dom
  import UriComponent
  import SandboxClient
  import Bootstrap

  // ---------------------------------------------------------------- escapeHtml

  /** The five characters the escaper's character class `[&<>"']` matches. */
  predicate IsSpecial(c: char) {
    c == '&' || c == '<' || c == '>' || c == '"' || c == '\''
  }

  /** The replacement for one matched character; every other character stands for itself. */
  function EscapeChar(c: char): (r: string)
    ensures |r| >= 1
    ensures IsSpecial(c) <==> r[0] == '&' && |r| > 1
    ensures forall i :: 0 <= i < |r| ==> r[i] != '<' && r[i] != '>' && r[i] != '"' && r[i] != '\''
  {
    match c
    case '&' => "&amp;"
    case '<' => "&lt;"
    case '>' => "&gt;"
    case '"' => "&quot;"
    case '\'' => "&#39;"
    case _ => [c]
  }

  /** `escapeHtml(str)`: a global replace, so each character of `str` is replaced independently. */
  function EscapeHtml(s: string): (r: string)
    ensures |r| >= |s|
    ensures |r| == |s| <==> forall i :: 0 <= i < |s| ==> !IsSpecial(s[i])
    ensures forall i :: 0 <= i < |r| ==> r[i] != '<' && r[i] != '>' && r[i] != '"' && r[i] != '\''
  {
    if s == [] then [] else
      var head := EscapeChar(s[0]);
      var tail := EscapeHtml(s[1..]);
      assert forall i :: 1 <= i < |s| ==> s[i] == s[1..][i - 1];
      assert forall i :: 0 <= i < |head + tail| ==> (head + tail)[i] == if i < |head| then head[i] else tail[i - |head|];
      head + tail
  }

  /** Replacement is character by character: escaping a concatenation escapes its parts. */
  lemma {:induction false} EscapeHtmlAppend(a: string, b: string)
    ensures EscapeHtml(a + b) == EscapeHtml(a) + EscapeHtml(b)
  {
    if a == [] {
      assert a + b == b;
    } else {
      assert (a + b)[1..] == a[1..] + b;
      EscapeHtmlAppend(a[1..], b);
    }
  }

  /** A string comes back unchanged exactly when it holds none of the five special characters. */
  lemma EscapeHtmlIdentity(s: string)
    ensures EscapeHtml(s) == s <==> forall i :: 0 <= i < |s| ==> !IsSpecial(s[i])
  {
    if forall i :: 0 <= i < |s| ==> !IsSpecial(s[i]) {
      EscapeHtmlIsCopy(s);
    }
  }

  lemma {:induction false} EscapeHtmlIsCopy(s: string)
    requires forall i :: 0 <= i < |s| ==> !IsSpecial(s[i])
    ensures EscapeHtml(s) == s
  {
    if s != [] {
      assert forall i :: 0 <= i < |s[1..]| ==> s[1..][i] == s[i + 1];
      EscapeHtmlIsCopy(s[1..]);
    }
  }

  /** The entity at the front of `s`, if any: the character it stands for and its length. */
  function EntityAt(s: string): (r: Option<(char, nat)>)
    ensures r.Some? ==> 4 <= r.value.1 <= |s| && s[0] == '&' && s[r.value.1 - 1] == ';'
  {
    if |s| >= 5 && s[0] == '&' && s[1] == 'a' && s[2] == 'm' && s[3] == 'p' && s[4] == ';' then Some(('&', 5))
    else if |s| >= 4 && s[0] == '&' && s[1] == 'l' && s[2] == 't' && s[3] == ';' then Some(('<', 4))
    else if |s| >= 4 && s[0] == '&' && s[1] == 'g' && s[2] == 't' && s[3] == ';' then Some(('>', 4))
    else if |s| >= 6 && s[0] == '&' && s[1] == 'q' && s[2] == 'u' && s[3] == 'o' && s[4] == 't' && s[5] == ';'
    then Some(('"', 6))
    else if |s| >= 5 && s[0] == '&' && s[1] == '#' && s[2] == '3' && s[3] == '9' && s[4] == ';' then Some(('\'', 5))
    else None
  }

  /** Reads the five entities back; any other character (a bare `&` included) stands for itself. */
  function UnescapeHtml(s: string): (r: string)
    ensures |r| <= |s|
  {
    if s == [] then []
    else match EntityAt(s)
      case Some((c, n)) => [c] + UnescapeHtml(s[n..])
      case None => [s[0]] + UnescapeHtml(s[1..])
  }

  lemma EntityAtEscapeChar(c: char, t: string)
    ensures EntityAt(EscapeChar(c) + t) == if IsSpecial(c) then Some((c, |EscapeChar(c)|)) else None
  {
    var u := EscapeChar(c) + t;
    assert forall i :: 0 <= i < |EscapeChar(c)| ==> u[i] == EscapeChar(c)[i];
  }

  lemma UnescapeEscapeChar(c: char, t: string)
    ensures UnescapeHtml(EscapeChar(c) + t) == [c] + UnescapeHtml(t)
  {
    var e := EscapeChar(c);
    var u := e + t;
    EntityAtEscapeChar(c, t);
    assert u[|e|..] == t;
  }

  /** Escaping loses nothing: the log entry's text can be read back from the markup. */
  lemma {:induction false} UnescapeEscapeHtml(s: string)
    ensures UnescapeHtml(EscapeHtml(s)) == s
  {
    if s != [] {
      UnescapeEscapeChar(s[0], EscapeHtml(s[1..]));
      UnescapeEscapeHtml(s[1..]);
      assert [s[0]] + s[1..] == s;
    }
  }

  /** Escaping is one-to-one: two different messages never render to the same text. */
  lemma EscapeHtmlInjective(a: string, b: string)
    ensures EscapeHtml(a) == EscapeHtml(b) <==> a == b
  {
    UnescapeEscapeHtml(a);
    UnescapeEscapeHtml(b);
  }

  // ---------------------------------------------------------------- log entries

  const ItemOpen: string := "\n      <span style=\"color: #cbd5e1\">[</span>\n      <span class=\"item-type "
  const ItemKindClose: string := "\">"
  const ItemMessageOpen: string := "</span>\n      <span style=\"color: #cbd5e1\">] :</span>\n      <span style=\"margin-left: 8px;\">"
  const ItemClose: string := "</span>\n    "

  /** Everything in a log entry's markup before the message. */
  function ItemHead(kind: string): string {
    ItemOpen + kind + ItemKindClose + kind + ItemMessageOpen
  }

  /** The inner markup `appendLog` gives the new `.item` div: the kind twice, then the escaped message. */
  function ItemHtml(kind: string, message: string): string {
    ItemHead(kind) + EscapeHtml(message) + ItemClose
  }

  lemma Middle(a: string, b: string, c: string)
    ensures var r := a + b + c; |a| <= |r| - |c| && r[|a|..|r| - |c|] == b
  {
    var r := a + b + c;
    assert r[|a|..|r| - |c|] == b;
  }

  /** The message part of an entry's markup is the escaped message, so it opens no tag and reads back as the message. */
  lemma ItemMessageRecoverable(kind: string, message: string)
    ensures var r := ItemHtml(kind, message); var lo := |ItemHead(kind)|; var hi := |r| - |ItemClose|;
      lo <= hi && r[lo..hi] == EscapeHtml(message) && UnescapeHtml(r[lo..hi]) == message
  {
    Middle(ItemHead(kind), EscapeHtml(message), ItemClose);
    UnescapeEscapeHtml(message);
  }

  /** A template literal shows an absent `method` as `undefined`. */
  function KindText(kind: Option<string>): string {
    kind.GetOr("undefined")
  }

  /** The markup the catch in `connectedCallback` replaces the whole widget with. */
  function LoadErrorHtml(msg: string): string {
    "<div style=\"color: red; padding: 20px;\">Load Error: " + msg + "</div>"
  }

  // ---------------------------------------------------------------- the skeleton

  /** The `data-tab` of each `.tab-btn` and the `id` of each `.pane`, in document order. */
  const ButtonTabs: seq<string> := ["preview", "logs"]
  const PaneIds: seq<string> := ["preview", "logs"]

  /** `#log-list`: the entries are its children, in order. */
  class LogList {
    var items: seq<string>

    constructor ()
      ensures items == []
    {
      items := [];
    }

    method Append(item: string)
      modifies this
      ensures items == old(items) + [item]
    {
      items := items + [item];
    }

    /** `innerHTML = ''`. */
    method Clear()
      modifies this
      ensures items == []
    {
      items := [];
    }
  }

  /** The nodes `renderSkeleton` creates: `#html-container`, `#log-list`, and the `active` class of each tab button and pane. */
  class Skeleton {
    const htmlContainer: Container
    const logList: LogList
    const buttonActive: array<bool>
    const paneActive: array<bool>

    /** The markup marks the first button and the first pane (`preview`) active. */
    constructor ()
      ensures fresh(htmlContainer) && fresh(logList) && fresh(buttonActive) && fresh(paneActive)
      ensures htmlContainer.children == [] && logList.items == []
      ensures buttonActive.Length == |ButtonTabs| && paneActive.Length == |PaneIds|
      ensures forall i :: 0 <= i < buttonActive.Length ==> buttonActive[i] == (i == 0)
      ensures forall j :: 0 <= j < paneActive.Length ==> paneActive[j] == (j == 0)
      ensures buttonActive != paneActive
    {
      htmlContainer := new Container();
      logList := new LogList();
      buttonActive := new bool[|ButtonTabs|](i => i == 0);
      paneActive := new bool[|PaneIds|](j => j == 0);
    }
  }

  /** What the widget's own content currently is. */
  datatype Body = HostContent | ShowsSkeleton | Markup(html: string)

  /**
   * How the guarded part of `connectedCallback` goes: both dynamic imports and the editor creation succeed,
   * an import fails (before the sandbox exists), or the editor creation fails (after it).
   */
  datatype Setup = Loaded | ImportFailed(reason: string) | EditorFailed(reason: string)

  class CodePlayground {
    const win: Window
    var sandBox: SandboxClient.HTMLSandBox?
    var editorAttached: bool
    var rendered: bool
    var body: Body
    var skeleton: Skeleton?

    ghost predicate Valid()
      reads this, win
    {
      win.Valid()
      && (sandBox != null ==> sandBox.win == win)
      && (body == ShowsSkeleton <==> skeleton != null)
      && (skeleton != null ==>
            skeleton.buttonActive.Length == |ButtonTabs| && skeleton.paneActive.Length == |PaneIds|
            && skeleton.buttonActive != skeleton.paneActive)
      && (editorAttached ==> rendered)
      && (rendered ==> skeleton != null && sandBox != null)
    }

    constructor (win: Window)
      requires win.Valid()
      ensures Valid() && this.win == win
      ensures sandBox == null && !editorAttached && !rendered && body == HostContent && skeleton == null
    {
      this.win := win;
      sandBox := null;
      editorAttached := false;
      rendered := false;
      body := HostContent;
      skeleton := null;
    }

    /**
     * `connectedCallback()`. `codeAttr` is the `code` attribute, `setup` the outcome of the imports and the editor
     * creation, `seed` the new sandbox's token and `fault` an exception the first `run` may throw.
     */
    method ConnectedCallback(codeAttr: Option<string>, setup: Setup, seed: Seed, fault: Option<string>)
      requires Valid()
      modifies this, win
      ensures Valid()
      ensures old(rendered) ==> unchanged(this) && win.listeners == old(win.listeners)
      ensures !old(rendered) && UriComponent.Decode(codeAttr.GetOr("")).None? ==>
        unchanged(this) && win.listeners == old(win.listeners)
      ensures !old(rendered) && UriComponent.Decode(codeAttr.GetOr("")).Some? ==>
        var code := UriComponent.Decode(codeAttr.GetOr("")).value;
        match setup
        case Loaded =>
          rendered && editorAttached && body == ShowsSkeleton && fresh(skeleton) && fresh(sandBox)
          && sandBox.seed == seed && sandBox.iframe in skeleton.htmlContainer.children
          && win.listeners == old(win.listeners) + [sandBox.fn]
          && (fault.None? ==>
                sandBox.iframe.srcdoc == Bootstrap.HtmlDocument(SandboxClient.MarkupShim(sandBox.seed), code)
                && skeleton.logList.items == [])
          && (fault.Some? ==> sandBox.iframe.srcdoc == "" && skeleton.logList.items == [ItemHtml("error", fault.value)])
        case ImportFailed(reason) =>
          !rendered && !editorAttached && body == Markup(LoadErrorHtml(reason)) && skeleton == null
          && sandBox == old(sandBox) && win.listeners == old(win.listeners)
        case EditorFailed(reason) =>
          !rendered && !editorAttached && body == Markup(LoadErrorHtml(reason)) && skeleton == null
          && fresh(sandBox) && sandBox.seed == seed && win.listeners == old(win.listeners) + [sandBox.fn]
    {
      if rendered {
        return;
      }
      var decoded := UriComponent.Decode(codeAttr.GetOr(""));
      if decoded.None? {
        return;
      }
      Mount(decoded.value, setup, seed, fault);
    }

    /** The guarded part of `connectedCallback`, from the skeleton on, for the decoded `code`. */
    method Mount(code: string, setup: Setup, seed: Seed, fault: Option<string>)
      requires Valid() && !rendered
      modifies this, win
      ensures Valid()
      ensures
        match setup
        case Loaded =>
          rendered && editorAttached && body == ShowsSkeleton && fresh(skeleton) && fresh(sandBox)
          && sandBox.seed == seed && sandBox.iframe in skeleton.htmlContainer.children
          && win.listeners == old(win.listeners) + [sandBox.fn]
          && (fault.None? ==>
                sandBox.iframe.srcdoc == Bootstrap.HtmlDocument(SandboxClient.MarkupShim(sandBox.seed), code)
                && skeleton.logList.items == [])
          && (fault.Some? ==> sandBox.iframe.srcdoc == "" && skeleton.logList.items == [ItemHtml("error", fault.value)])
        case ImportFailed(reason) =>
          !rendered && !editorAttached && body == Markup(LoadErrorHtml(reason)) && skeleton == null
          && sandBox == old(sandBox) && win.listeners == old(win.listeners)
        case EditorFailed(reason) =>
          !rendered && !editorAttached && body == Markup(LoadErrorHtml(reason)) && skeleton == null
          && fresh(sandBox) && sandBox.seed == seed && win.listeners == old(win.listeners) + [sandBox.fn]
    {
      match setup
      case ImportFailed(reason) =>
        ShowLoadError(reason);
      case EditorFailed(reason) =>
        AttachSandbox(seed);
        ShowLoadError(reason);
      case Loaded =>
        MountLoaded(code, seed, fault);
    }

    /** The whole `try` block when nothing in it throws: skeleton, sandbox, editor, first run. */
    method MountLoaded(code: string, seed: Seed, fault: Option<string>)
      requires Valid() && !rendered
      modifies this, win
      ensures Valid()
      ensures rendered && editorAttached && body == ShowsSkeleton && fresh(skeleton) && fresh(sandBox)
          && sandBox.seed == seed && sandBox.iframe in skeleton.htmlContainer.children
          && win.listeners == old(win.listeners) + [sandBox.fn]
          && (fault.None? ==>
                sandBox.iframe.srcdoc == Bootstrap.HtmlDocument(SandboxClient.MarkupShim(sandBox.seed), code)
                && skeleton.logList.items == [])
          && (fault.Some? ==> sandBox.iframe.srcdoc == "" && skeleton.logList.items == [ItemHtml("error", fault.value)])
    {
      AttachSandbox(seed);
      FirstRun(code, fault);
    }

    /** `renderSkeleton()`, then `new HTMLSandBox` on the skeleton's `#html-container`. */
    method AttachSandbox(seed: Seed)
      requires Valid() && !rendered
      modifies this, win
      ensures Valid() && !rendered && !editorAttached && body == ShowsSkeleton
      ensures fresh(skeleton) && fresh(skeleton.logList) && skeleton.logList.items == [] && fresh(sandBox) && sandBox.seed == seed
      ensures fresh(sandBox.iframe) && sandBox.iframe.srcdoc == "" && sandBox.iframe in skeleton.htmlContainer.children
      ensures win.listeners == old(win.listeners) + [sandBox.fn]
    {
      var sk := new Skeleton();
      skeleton := sk;
      body := ShowsSkeleton;
      var box := new SandboxClient.HTMLSandBox(win, sk.htmlContainer, seed);
      sandBox := box;
    }

    /** The first `runCode(initialCode)`, after which the widget counts as rendered. */
    method FirstRun(code: string, fault: Option<string>)
      requires Valid() && skeleton != null && sandBox != null
      modifies this, sandBox.iframe, skeleton.logList
      ensures Valid() && rendered && editorAttached && body == ShowsSkeleton
      ensures skeleton == old(skeleton) && sandBox == old(sandBox)
      ensures fault.None? ==>
        sandBox.iframe.srcdoc == Bootstrap.HtmlDocument(SandboxClient.MarkupShim(sandBox.seed), code)
        && skeleton.logList.items == old(skeleton.logList.items)
      ensures fault.Some? ==>
        sandBox.iframe.srcdoc == old(sandBox.iframe.srcdoc)
        && skeleton.logList.items == old(skeleton.logList.items) + [ItemHtml("error", fault.value)]
    {
      editorAttached := true;
      rendered := true;
      RunCode(code, fault);
    }

    /** The catch of `connectedCallback`: the whole content becomes the load error, so the skeleton is gone. */
    method ShowLoadError(reason: string)
      requires Valid() && !rendered
      modifies this
      ensures Valid() && body == Markup(LoadErrorHtml(reason)) && skeleton == null && !editorAttached
      ensures sandBox == old(sandBox) && rendered == old(rendered)
    {
      body := Markup(LoadErrorHtml(reason));
      skeleton := null;
    }

    /** `runCode(code)`: nothing without a sandbox; an exception from `run` becomes one `error` entry. */
    method RunCode(code: string, fault: Option<string>)
      requires Valid()
      modifies if sandBox != null then {sandBox.iframe} else {}
      modifies if skeleton != null then {skeleton.logList} else {}
      ensures Valid() && unchanged(this)
      ensures sandBox == null ==> skeleton == null || skeleton.logList.items == old(skeleton.logList.items)
      ensures sandBox != null && fault.None? ==>
        sandBox.iframe.srcdoc == Bootstrap.HtmlDocument(SandboxClient.MarkupShim(sandBox.seed), code)
        && (skeleton != null ==> skeleton.logList.items == old(skeleton.logList.items))
      ensures sandBox != null && fault.Some? ==>
        sandBox.iframe.srcdoc == old(sandBox.iframe.srcdoc)
        && (skeleton != null ==> skeleton.logList.items == old(skeleton.logList.items) + [ItemHtml("error", fault.value)])
    {
      if sandBox != null {
        if fault.Some? {
          AppendLog("error", fault.value);
        } else {
          sandBox.Run(code);
        }
      }
    }

    /** `appendLog({type, message})`: one entry at the end of `#log-list`, or nothing when the list is gone. */
    method AppendLog(kind: string, message: string)
      requires Valid()
      modifies if skeleton != null then {skeleton.logList} else {}
      ensures Valid() && unchanged(this)
      ensures skeleton != null ==> skeleton.logList.items == old(skeleton.logList.items) + [ItemHtml(kind, message)]
    {
      if skeleton != null {
        skeleton.logList.Append(ItemHtml(kind, message));
      }
    }

    /** `clearLogs()`. */
    method ClearLogs()
      requires Valid()
      modifies if skeleton != null then {skeleton.logList} else {}
      ensures skeleton != null ==> skeleton.logList.items == []
    {
      if skeleton != null {
        skeleton.logList.Clear();
      }
    }

    /** The editor's change listener: the log list is emptied, then the new text is run. */
    method OnEdit(code: string, fault: Option<string>)
      requires Valid() && editorAttached
      modifies sandBox.iframe, skeleton.logList
      ensures fault.None? ==>
        sandBox.iframe.srcdoc == Bootstrap.HtmlDocument(SandboxClient.MarkupShim(sandBox.seed), code)
        && skeleton.logList.items == []
      ensures fault.Some? ==>
        sandBox.iframe.srcdoc == old(sandBox.iframe.srcdoc) && skeleton.logList.items == [ItemHtml("error", fault.value)]
    {
      ClearLogs();
      RunCode(code, fault);
    }

    /** The sandbox's callback, as its `message` listener runs it: a delivered entry is appended to the log list. */
    method OnMessage(d: MessageData)
      requires Valid()
      modifies if skeleton != null then {skeleton.logList} else {}
      ensures sandBox != null && skeleton != null && React(sandBox.fn.filter, d).Delivered? ==>
        var e := React(sandBox.fn.filter, d).entry;
        skeleton.logList.items == old(skeleton.logList.items) + [ItemHtml(KindText(e.kind), e.message)]
      ensures skeleton != null && (sandBox == null || !React(sandBox.fn.filter, d).Delivered?) ==>
        skeleton.logList.items == old(skeleton.logList.items)
    {
      if sandBox != null {
        var reaction := React(sandBox.fn.filter, d);
        if reaction.Delivered? {
          AppendLog(KindText(reaction.entry.kind), reaction.entry.message);
        }
      }
    }

    /** `handleTabClick` on the `k`-th button: that button alone becomes active, and each pane whose id is its `data-tab`. */
    method HandleTabClick(k: nat)
      requires Valid() && skeleton != null && k < skeleton.buttonActive.Length
      modifies skeleton.buttonActive, skeleton.paneActive
      ensures forall i :: 0 <= i < skeleton.buttonActive.Length ==> skeleton.buttonActive[i] == (i == k)
      ensures forall j :: 0 <= j < skeleton.paneActive.Length ==>
        skeleton.paneActive[j] == (PaneIds[j] == ButtonTabs[k])
      ensures forall j :: 0 <= j < skeleton.paneActive.Length ==> skeleton.paneActive[j] == (j == k)
    {
      var buttons := skeleton.buttonActive;
      var panes := skeleton.paneActive;
      var target := ButtonTabs[k];
      for i := 0 to buttons.Length
        invariant forall i' :: 0 <= i' < i ==> buttons[i'] == (i' == k)
      {
        buttons[i] := i == k;
      }
      for j := 0 to panes.Length
        invariant forall i' :: 0 <= i' < buttons.Length ==> buttons[i'] == (i' == k)
        invariant forall j' :: 0 <= j' < j ==> panes[j'] == (PaneIds[j'] == target)
      {
        panes[j] := PaneIds[j] == target;
      }
    }

    /** `disconnectedCallback()`: the sandbox, if any, removes its listener. */
    method DisconnectedCallback()
      requires Valid()
      modifies win
      ensures Valid()
      ensures sandBox != null ==> win.listeners == Without(old(win.listeners), sandBox.fn.handle)
      ensures sandBox == null ==> win.listeners == old(win.listeners)
    {
      if sandBox != null {
        sandBox.Destroy();
      }
    }
  }
}
