# Code-playground sandboxes of the Spring Breeze blog, in Dafny

The blog runs reader-editable code in iframes. A sandbox object builds the iframe's whole document as one string.
That document is a bootstrap script followed by the guest code. The bootstrap wraps five `console` methods so
that every call posts `{type: 'console', method, seed, args}` to the parent window. The sandbox's page-wide
`message` listener passes only the records carrying its own `seed` to its callback. The older, tokenless sandbox
has no seed, so it hears every sandbox on the page. Around these sit:

- the code-playground widget, with its log list, tabs, mount guard and HTML escaper;
- the Mermaid diagram widget;
- the Markdown plugin that turns fenced blocks into widget tags, percent-encoding the code into an attribute;
- the navigation-link prefixing;
- the editor's language-worker choice;
- the HEIF decoder client and its worker protocol.

Modules, one per source file plus shared pieces:

- `Wrappers`: `Option` and `Result`.
- `Text`: `args.join('\n')`, decimal numerals, reading an attribute up to its closing quote.
- `UriComponent`: `encodeURIComponent` and `decodeURIComponent` as ECMA-262 sections 19.2.6.2, 19.2.6.4 and
  19.2.6.5 define them, over UTF-8 and upper-case percent triplets. A decoding error (`URIError`) is `None`.
- `Dom`: elements, the body, a container, message records, and the window's listener list.
- `ConsoleShim` and `Bootstrap`: the guest-side wrappers and the bootstrap document text.
- `SandboxClient`, `SandboxLegacy`, `HtmlBox`, `MermaidViewer`, `RemarkCustomBlocks`, `Consts`, `InitWorker`,
  `Heic`.

Guest code is not executed. A guest program is a list of console calls plus an optional thrown value.
Its observable effects are the records it posts and the original console calls it makes. Each listener on
`window` has a handle, since `removeEventListener` finds the function by identity.

Behaviour of the code worth noting:

- The `SandBox` stringifier is `arg.toString()`. It throws a `TypeError` on `undefined` and `null`, so that
  wrapper posts nothing and the error leaves the call (`ConsoleShim.CallToString`,
  `ConsoleShim.PlainToStringThrowsOnUndefined`). Only `HTMLSandBox` maps them to `"undefined"` and `"null"`.
- `CodePlayground` imports `HTMLSandBox` from `../util`. The model uses the `HTMLSandBox` of
  `docs/.vitepress/theme/util.client.ts`.
- In both widgets, `decodeURIComponent` runs outside the `try`. A malformed attribute therefore rejects the
  callback's promise and leaves the widget as it was. It does not produce an error message.

## Model

| member | source | states |
|---|---|---|
| Dom.Accepts | docs/.vitepress/theme/util.client.ts:16 | Definition of the listener's guard: a console record, with the listener's seed when it is keyed. `SandboxClient.KeyedListenerFilter` and `SandboxLegacy.TokenlessListenerFilter` state what the guard lets through. |
| Dom.Dispatch | docs/.vitepress/theme/util.client.ts:15-25 | Definition of one message event: each listener in registration order, and the callbacks that run. `Dom.DispatchReaches` and `Dom.DispatchFromListeners` state which callbacks run. |
| Dom.DispatchReaches | docs/.vitepress/theme/util.client.ts:15-25 | A callback runs with entry `e` for a message exactly when a listener with its handle is on the window and delivers `e`. |
| Dom.DispatchFromListeners | docs/.vitepress/theme/util.client.ts:15-25 | Every callback a message runs belongs to a registered listener that accepted it. |
| Dom.Without | docs/.vitepress/theme/util.client.ts:27-29 | Removing a handle keeps exactly the listeners with other handles and never grows the list. |
| Dom.WithoutIdempotent | docs/.vitepress/theme/util.client.ts:27-29 | Removing the same listener twice is the same as removing it once. |
| Dom.WithoutKeepsOthers | docs/.vitepress/theme/util.client.ts:27-29 | Removing a handle that is not registered leaves the list as it was. |
| Dom.WithoutDistinct | docs/.vitepress/theme/util.client.ts:27-29 | Removal keeps the handles on the window distinct. |
| Dom.NothingAfterRemoval | docs/.vitepress/theme/util.client.ts:27-29 | Once its listener is removed, no message reaches that callback. |
| Dom.Window.constructor | docs/.vitepress/theme/util.client.ts:25 | A page starts with no message listeners. |
| Dom.Window.NewHandle | docs/.vitepress/theme/util.client.ts:15 | Each arrow function a constructor creates is a new listener identity, distinct from every registered one. |
| Dom.Window.AddEventListener | docs/.vitepress/theme/util.client.ts:25 | Adding a listener appends it, unless a listener with that identity is already registered. |
| Dom.Window.RemoveEventListener | docs/.vitepress/theme/util.client.ts:28 | The new list is the old one without that listener, and nothing else changes. |
| Dom.Window.Post | docs/.vitepress/theme/util.client.ts:15-23 | Dispatching a message to the window runs exactly the callbacks `Dispatch` computes from the current listeners, in order. |
| Dom.Element.constructor | docs/.vitepress/theme/util.client.ts:10 | A new iframe has no id, is not hidden and has an empty `srcdoc`. |
| Dom.Container.AppendChild | docs/.vitepress/theme/util.client.ts:81 | The element is added at the end of the container's children. |
| Dom.Document.AppendChild | docs/.vitepress/theme/util.client.ts:13 | The element is added at the end of the body. |
| Dom.Document.QuerySelector | docs/.vitepress/theme/util.client.ts:7 | As written, for `#id` and tag-name selectors only: the lookup finds an element exactly when one matches. `#x` matches by id; any other text is read as a tag name. |
| Dom.Document.FindById | docs/.vitepress/theme/util.client.ts:7 | As intended: the lookup finds an element exactly when one in the body has that id. |
| Dom.QuerySelectorMissesOwnFrame | docs/.vitepress/theme/util.client.ts:6-14 | With the default id, `querySelector` misses the hidden iframe a sandbox created, whereas a lookup by id finds it. |
| Text.SplitLines | docs/.vitepress/theme/util.client.ts:19 | Splitting at newlines gives at least one part, and no part holds a newline. |
| Text.SplitJoin | docs/.vitepress/theme/util.client.ts:19 | When no argument holds a newline, the arguments can be recovered from the delivered message. |
| Text.NatToDecimal | docs/.vitepress/theme/util.client.ts:43 | The seed is written into the script as a non-empty run of decimal digits. |
| Text.DecimalRoundTrip | docs/.vitepress/theme/util.client.ts:43 | The numeral written into the script reads back as the seed. |
| Text.TakeUntilQuote | src/plugins/remark-custom-blocks.mjs:13 | An attribute value ends at the first quote: the result is a quote-free prefix, followed by a quote or by the end of the text. |
| Text.TakeUntilQuoteOf | src/plugins/remark-custom-blocks.mjs:13 | A quote-free value followed by a quote is read back exactly. |
| UriComponent.HexDigit | src/plugins/remark-custom-blocks.mjs:13 | A percent triplet uses upper-case hex digits that read back as the nibble. |
| UriComponent.Utf8 | src/plugins/remark-custom-blocks.mjs:13 | A character takes one to four UTF-8 octets. |
| UriComponent.Escapes | src/plugins/remark-custom-blocks.mjs:13 | Each octet becomes three characters, `%` and two hex digits. |
| UriComponent.Encode | src/plugins/remark-custom-blocks.mjs:13 | The encoding consists only of unreserved characters and `%`. |
| UriComponent.EncodeIsAttributeSafe | src/plugins/remark-custom-blocks.mjs:13 | The encoding holds no quote, angle bracket, ampersand or whitespace. |
| UriComponent.EncodeIdentity | src/plugins/remark-custom-blocks.mjs:13 | A text is left as it is exactly when every character is unreserved. |
| UriComponent.EncodeNeverShrinks | src/plugins/remark-custom-blocks.mjs:13 | The encoding is never shorter than the text. |
| UriComponent.DecodeEscape | src/scripts/web-components/html-box.ts:27 | A decoded escape consumes at least one triplet and stays within the input. |
| UriComponent.DecodeEncode | src/scripts/web-components/html-box.ts:27 | `decodeURIComponent(encodeURIComponent(s))` gives back `s` for every string. |
| ConsoleShim.CallToString | docs/.vitepress/theme/util.client.ts:45 | `toString()` fails exactly on `undefined` and `null`, with a TypeError whose text is V8's wording. |
| ConsoleShim.StringifyAll | docs/.vitepress/theme/util.client.ts:44-46 | The args map keeps the arity and each argument's string. It fails only for the plain stringifier when an argument is `undefined` or `null`. |
| ConsoleShim.RunSteps | docs/.vitepress/theme/util.client.ts:55-63 | Definition of running the guest's console calls in order, stopping at the first that throws. `ConsoleShim.PostsAppend` and `ConsoleShim.RunStepsPostedBy` state what the calls post. |
| ConsoleShim.Execute | docs/.vitepress/theme/util.client.ts:100-126 | Definition of a guest run without a try/catch: the calls, then the guest's own throw, if any. `ConsoleShim.ExecutePostedBy` states what it posts. |
| ConsoleShim.Guarded | docs/.vitepress/theme/util.client.ts:55-63 | Definition of the script inside the bootstrap's try/catch, whose catch calls `console.error(e)`. `ConsoleShim.GuardedPostedBy` and `ConsoleShim.ErrorCaptured` state what it posts and that the error is caught. |
| ConsoleShim.PostsAppend | docs/.vitepress/theme/util.client.ts:36-51 | The posts of consecutive calls are the posts of each call, concatenated in order. |
| ConsoleShim.PostsOfWrappedCall | docs/.vitepress/theme/util.client.ts:38-50 | A wrapped call posts exactly one record: `{type:'console', method, seed, args}`. |
| ConsoleShim.RunStepsPostedBy | docs/.vitepress/theme/util.client.ts:35-51 | Every record a guest's console calls post is a console record of a wrapped method. It carries the bootstrap's seed and an args array. |
| ConsoleShim.GuardedPostedBy | docs/.vitepress/theme/util.client.ts:55-63 | The same holds for the try/catch-wrapped script, including the `console.error(e)` of the catch. |
| ConsoleShim.ExecutePostedBy | docs/.vitepress/theme/util.client.ts:100-126 | The same holds for the markup sandbox, whose guest runs without a try/catch. |
| ConsoleShim.LogOnePlusOne | docs/.vitepress/theme/util.client.ts:38-50 | `console.log(1 + 1)` posts exactly one record, `['2']` as `log`. |
| ConsoleShim.NullSafeNeverThrows | docs/.vitepress/theme/util.client.ts:112-120 | With the null-safe stringifier every wrapped call posts and then calls the original. |
| ConsoleShim.ErrorCaptured | docs/.vitepress/theme/util.client.ts:57-61 | An error thrown by the script is caught and reported through a wrapped `console.error`. |
| ConsoleShim.PlainToStringThrowsOnUndefined | docs/.vitepress/theme/util.client.ts:44-46 | `console.log(undefined)` under the plain stringifier posts nothing and throws. |
| Bootstrap.ModuleDocument | docs/.vitepress/theme/util.client.ts:32-66 | Definition of the script sandbox's document text. `Bootstrap.ModuleDocumentLayout` and `Bootstrap.SeedLiteral` state its layout and its seed. |
| Bootstrap.HtmlDocument | docs/.vitepress/theme/util.client.ts:100-126 | Definition of the markup sandbox's document text. `Bootstrap.HtmlDocumentLayout` and `Bootstrap.SeedLiteral` state its layout and its seed. |
| Bootstrap.ModuleDocumentLayout | docs/.vitepress/theme/util.client.ts:32-66 | The script document is the bootstrap head, then the guest code verbatim, then the catch that calls `console.error(e)`. |
| Bootstrap.HtmlDocumentLayout | docs/.vitepress/theme/util.client.ts:100-126 | The markup document is the bootstrap script, then the guest markup verbatim, then the trailing indentation. |
| Bootstrap.SeedLiteral | docs/.vitepress/theme/util.client.ts:43 | The bootstrap holds `seed: <n>`, and `<n>` reads back as the seed. This holds for both sandboxes' bootstraps, the script one with `arg.toString()` and the markup one with the null-safe stringifier. |
| SandboxClient.AcquireFrameAsWritten | docs/.vitepress/theme/util.client.ts:6-14 | As written: the element `querySelector(id)` finds is reused with the body unchanged. Otherwise a fresh hidden iframe with that id and an empty `srcdoc` is appended to the body. |
| SandboxClient.AcquireFrame | docs/.vitepress/theme/util.client.ts:6-14 | As intended: the same, with the element found by id. |
| SandboxClient.TwoFramesAsWritten | docs/.vitepress/theme/util.client.ts:6-14 | As written, two sandboxes with the default id on a page without a `<sandbox-iframe>` element leave two distinct hidden `iframe#sandbox-iframe` frames appended to the body. |
| SandboxClient.OneFrameById | docs/.vitepress/theme/util.client.ts:6-14 | As intended, the second sandbox reuses the first one's frame, and the body gains exactly one iframe. |
| SandboxClient.SandBox.constructor | docs/.vitepress/theme/util.client.ts:5-26 | It reuses the element with the given id, or else creates a hidden iframe with that id and appends it to the body. It then registers one new listener keyed to its seed. |
| SandboxClient.SandBox.Destroy | docs/.vitepress/theme/util.client.ts:27-29 | It removes exactly its own listener; a second call changes nothing. |
| SandboxClient.SandBox.Run | docs/.vitepress/theme/util.client.ts:30-67 | `srcdoc` becomes the script document for this seed and code, replacing what was there. |
| SandboxClient.HTMLSandBox.constructor | docs/.vitepress/theme/util.client.ts:75-94 | It always creates a fresh, visible iframe in its container, then registers one new keyed listener. |
| SandboxClient.HTMLSandBox.Destroy | docs/.vitepress/theme/util.client.ts:95-97 | It removes exactly its own listener; a second call changes nothing. |
| SandboxClient.HTMLSandBox.Run | docs/.vitepress/theme/util.client.ts:98-127 | `srcdoc` becomes the bootstrap script followed by the markup verbatim. The frame keeps its id and visibility. |
| SandboxClient.KeyedListenerFilter | docs/.vitepress/theme/util.client.ts:16-21 | A keyed listener delivers exactly the console records with its seed and an args array. |
| SandboxClient.OnlyMatchingSeedDelivered | docs/.vitepress/theme/util.client.ts:16 | On a page of keyed sandboxes, a record with seed `s` reaches only listeners keyed to `s`. |
| SandboxClient.OutputStaysWithItsSandbox | docs/.vitepress/theme/util.client.ts:15-25 | When all posted records carry A's seed, each record posted reaches A's callback as `args.join('\n')` with its method, and never a sandbox B with another seed. |
| SandboxClient.MarkupGuestOutputStaysWithItsSandbox | docs/.vitepress/theme/util.client.ts:75-127 | Every record an `HTMLSandBox` guest posts through A's markup bootstrap reaches A's callback and never B's. |
| SandboxClient.ScriptGuestOutputStaysWithItsSandbox | docs/.vitepress/theme/util.client.ts:15-67 | Every record a `SandBox` guest posts through A's script bootstrap, its catch included, reaches A's callback and never B's. |
| SandboxClient.UnseededIgnored | docs/.vitepress/theme/util.client.ts:16 | A keyed listener ignores records without a seed, such as the tokenless bootstrap's. |
| SandboxLegacy.SandBox.constructor | docs/.vitepress/theme/util.ts:4-24 | The frame is found or created as for the keyed sandbox, and one new listener is registered that checks only the type. |
| SandboxLegacy.SandBox.Destroy | docs/.vitepress/theme/util.ts:25-27 | It removes exactly its own listener; repeating it is harmless. |
| SandboxLegacy.SandBox.Run | docs/.vitepress/theme/util.ts:28-64 | `srcdoc` becomes the tokenless bootstrap with the code verbatim inside the try/catch. |
| SandboxLegacy.TokenlessListenerFilter | docs/.vitepress/theme/util.ts:13-21 | Every console record with args is delivered and every other type is ignored. The entry is `args.join('\n')` with `method`. |
| SandboxLegacy.LegacyPostsUnseeded | docs/.vitepress/theme/util.ts:36-46 | The tokenless bootstrap posts records without a seed. |
| SandboxLegacy.EveryTokenlessSandboxHearsEveryGuest | docs/.vitepress/theme/util.ts:13-23 | Any guest's output, keyed or not, reaches every tokenless sandbox's callback on the page. |
| HtmlBox.EscapeChar | src/scripts/web-components/html-box.ts:222-228 | Exactly the five special characters become entities; no replacement holds `< > " '`. |
| HtmlBox.EscapeHtml | src/scripts/web-components/html-box.ts:218-230 | The output has no `<`, `>`, `"` or `'`. It is never shorter than the input, and has the same length exactly when the input has no special character. |
| HtmlBox.EscapeHtmlAppend | src/scripts/web-components/html-box.ts:220 | Escaping works character by character: `escape(a + b) = escape(a) + escape(b)`. |
| HtmlBox.EscapeHtmlIdentity | src/scripts/web-components/html-box.ts:219-229 | A string is unchanged exactly when it holds none of `& < > " '`. |
| HtmlBox.EscapeHtmlIsCopy | src/scripts/web-components/html-box.ts:228 | A string without special characters comes back as it is. |
| HtmlBox.EntityAt | src/scripts/web-components/html-box.ts:223-227 | A recognised entity starts with `&`, ends with `;` and lies within the text. |
| HtmlBox.UnescapeEscapeHtml | src/scripts/web-components/html-box.ts:218-230 | Unescaping the output gives back the message, so escaping loses nothing. |
| HtmlBox.EscapeHtmlInjective | src/scripts/web-components/html-box.ts:218-230 | Two messages escape to the same text exactly when they are equal. |
| HtmlBox.ItemHtml | src/scripts/web-components/html-box.ts:209-214 | Definition of an entry's markup: the kind twice, then the escaped message. `HtmlBox.ItemMessageRecoverable` states that the message reads back from it. |
| HtmlBox.ItemMessageRecoverable | src/scripts/web-components/html-box.ts:209-214 | The message part of a log entry's markup is the escaped message and reads back as the message. |
| HtmlBox.LoadErrorHtml | src/scripts/web-components/html-box.ts:73-76 | Definition of the `Load Error: <msg>` markup, with the message unescaped. `HtmlBox.CodePlayground.ShowLoadError` states when it replaces the widget. |
| HtmlBox.LogList.Append | src/scripts/web-components/html-box.ts:215 | One entry is added at the end of the list. |
| HtmlBox.LogList.Clear | src/scripts/web-components/html-box.ts:235 | The list becomes empty. |
| HtmlBox.Skeleton.constructor | src/scripts/web-components/html-box.ts:154-168 | A fresh container and an empty log list. There are two buttons and two panes, and only the `preview` ones are active. |
| HtmlBox.CodePlayground.constructor | src/scripts/web-components/html-box.ts:11-19 | No sandbox, no editor, not rendered. |
| HtmlBox.CodePlayground.ConnectedCallback | src/scripts/web-components/html-box.ts:21-77 | A no-op once rendered, and when decoding fails. On success: skeleton, a fresh keyed sandbox whose frame is in `#html-container`, the decoded code run, and `_rendered` set. A failing import shows `Load Error: <msg>` before any sandbox exists. A failing editor shows it after one was created. In both failure cases `_rendered` stays false. |
| HtmlBox.CodePlayground.Mount | src/scripts/web-components/html-box.ts:29-76 | A failed import shows the load error without creating a sandbox. A failed editor creation shows it after the sandbox was created and registered. Otherwise the widget ends up rendered. |
| HtmlBox.CodePlayground.MountLoaded | src/scripts/web-components/html-box.ts:29-72 | With nothing throwing: a fresh skeleton, a fresh keyed sandbox in `#html-container`, its listener added, the first run done, and the widget rendered. |
| HtmlBox.CodePlayground.AttachSandbox | src/scripts/web-components/html-box.ts:30-45 | A fresh skeleton with an empty log list, then a fresh sandbox on it with the given seed. Its frame is a child of `#html-container` and its listener is added at the end. |
| HtmlBox.CodePlayground.FirstRun | src/scripts/web-components/html-box.ts:70-72 | The initial code is run as `RunCode` does, and the widget is marked rendered. |
| HtmlBox.CodePlayground.ShowLoadError | src/scripts/web-components/html-box.ts:73-76 | The content becomes the `Load Error` markup, the skeleton is gone, and `_rendered` is not set. |
| HtmlBox.CodePlayground.RunCode | src/scripts/web-components/html-box.ts:190-199 | Without a sandbox, nothing happens. Otherwise the code replaces the frame's document, or an exception from `run` becomes one `error` entry. |
| HtmlBox.CodePlayground.AppendLog | src/scripts/web-components/html-box.ts:201-216 | Exactly one entry, holding the escaped message, is added at the end of `#log-list`. Nothing happens when the list is gone. |
| HtmlBox.CodePlayground.ClearLogs | src/scripts/web-components/html-box.ts:232-237 | `#log-list` is emptied when present. |
| HtmlBox.CodePlayground.OnEdit | src/scripts/web-components/html-box.ts:64-67 | The log list is emptied before the new code runs, so it then holds only the run's own error, if any. |
| HtmlBox.CodePlayground.OnMessage | src/scripts/web-components/html-box.ts:43 | An entry the sandbox's listener delivers is appended to the log list, and everything else is ignored. |
| HtmlBox.CodePlayground.HandleTabClick | src/scripts/web-components/html-box.ts:177-188 | Afterwards exactly the clicked button is active. A pane is active exactly when its id equals the button's `data-tab`, which is exactly one pane. |
| HtmlBox.CodePlayground.DisconnectedCallback | src/scripts/web-components/html-box.ts:239-245 | The sandbox, if any, removes its listener from the window. |
| MermaidViewer.ErrorHtml | src/scripts/web-components/mermaid-viewer.ts:45-47 | Definition of the `Mermaid Error: <msg>` block, with the message unescaped. `MermaidViewer.Viewer.Settle` states when it is shown. |
| MermaidViewer.Viewer.constructor | src/scripts/web-components/mermaid-viewer.ts:5-9 | A new viewer is not rendered and keeps the page's attributes and content. |
| MermaidViewer.Viewer.ConnectedCallback | src/scripts/web-components/mermaid-viewer.ts:11-23 | It does nothing once rendered, with a missing or empty `code`, or when decoding fails. Otherwise the content is the loading placeholder and the decoded source goes to the renderer. |
| MermaidViewer.Viewer.Settle | src/scripts/web-components/mermaid-viewer.ts:40-48 | On success the content is the SVG, `_rendered` is set and `data-hidden` removed. On failure the content is the `Mermaid Error:` block and the flags stay. |
| MermaidViewer.RenderedIsFinal | src/scripts/web-components/mermaid-viewer.ts:12-14 | Connecting a rendered viewer again changes nothing. |
| MermaidViewer.ErrorRetries | src/scripts/web-components/mermaid-viewer.ts:45-48 | After a failed render the next connect shows the placeholder and renders again. |
| RemarkCustomBlocks.CodeBlockHtml | src/plugins/remark-custom-blocks.mjs:7-44 | Definition of the four templates. `RemarkCustomBlocks.CodeBlockHtmlShape`, `RemarkCustomBlocks.EncodedAttributeRoundTrip`, `RemarkCustomBlocks.IframeSrcIntact` and `RemarkCustomBlocks.InlineSlotIsRaw` state what they produce. |
| RemarkCustomBlocks.CodeBlockHtmlShape | src/plugins/remark-custom-blocks.mjs:7-44 | A node is rewritten exactly for `mermaid`, `html-box`, `iframe` and `inline`, with a missing `lang` read as `''`. The new value starts with that language's tag. |
| RemarkCustomBlocks.EncodedHasNoQuote | src/plugins/remark-custom-blocks.mjs:13 | The encoded attribute value never holds `"`. |
| RemarkCustomBlocks.EncodedAttributeRoundTrip | src/plugins/remark-custom-blocks.mjs:11-44 | For `mermaid`, `html-box` and `inline`, the `code` attribute ends where the template ends it. Decoding it gives back the block's source. |
| RemarkCustomBlocks.IframeSrcIntact | src/plugins/remark-custom-blocks.mjs:27-34 | The raw attribute text of `src`, up to its first quote, is `base + value` exactly when neither holds a quote. |
| RemarkCustomBlocks.InlineSlotIsRaw | src/plugins/remark-custom-blocks.mjs:36-44 | The inline preview slot holds the raw source, unescaped. |
| RemarkCustomBlocks.MdNode.constructor | src/plugins/remark-custom-blocks.mjs:6-8 | A node has its type, language and value. |
| RemarkCustomBlocks.Rewrite | src/plugins/remark-custom-blocks.mjs:6-45 | The visitor, called on `code` nodes only. A custom block becomes an `html` node with the rewritten value. Any other node is left unchanged. |
| RemarkCustomBlocks.Transform | src/plugins/remark-custom-blocks.mjs:5-46 | Each `code` node of the tree is rewritten once, and every other node is left unchanged. |
| Consts.IsGithub | src/consts.ts:12-14 | `isGithub` holds exactly when `VERCEL` is unset or empty and `NODE_ENV` is `production`. |
| Consts.PrefixLink | src/consts.ts:39-45 | Definition of the `.map` callback. `Consts.PrefixLinksShape` states what it does to each link. |
| Consts.PrefixLinks | src/consts.ts:38-46 | The map keeps the length and applies the callback to each link. |
| Consts.PrefixLinksShape | src/consts.ts:38-46 | Names and order are kept and every url starts with the base. A non-root url becomes base + url, and with a non-empty base the root becomes exactly the base. |
| Consts.EmptyBaseIsIdentity | src/consts.ts:39-45 | With an empty base every link is unchanged. |
| Consts.WebsiteLinks | src/consts.ts:38-46 | Definition of the prefixed links. `Consts.GithubLinks` and `Consts.OtherBuildLinks` state them for each build. |
| Consts.GithubLinks | src/consts.ts:25-46 | The GitHub Pages build (base `/blog`) gives `/blog`, `/blog/posts` and `/blog/about`, with no trailing slash on Home. |
| Consts.OtherBuildLinks | src/consts.ts:16-46 | Every other build (base `''`) keeps the root-relative urls. |
| InitWorker.WorkerFor | docs/.vitepress/theme/init-worker.ts:22-36 | The choice is: `json` gives JSON; `css`, `scss` and `less` give CSS; `html`, `handlebars` and `razor` give HTML; `typescript` and `javascript` give TS. These are the only labels that give those workers. |
| InitWorker.LookupFirst | docs/.vitepress/theme/init-worker.ts:23-35 | The first matching entry wins. |
| InitWorker.LookupNone | docs/.vitepress/theme/init-worker.ts:35 | With no matching entry, the editor worker is used. |
| InitWorker.WorkerForIsTable | docs/.vitepress/theme/init-worker.ts:23-35 | The branch chain agrees with the label table on every label. |
| InitWorker.UnknownLabelsGetEditorWorker | docs/.vitepress/theme/init-worker.ts:35 | Any other label gets the generic editor worker, so the choice is total. |
| Heic.Code | src/content/blog/public/demo/heic/lib/heic.js:22 | The message-type codes lie in 0..2. |
| Heic.FromCode | src/content/blog/public/demo/heic/lib/heic.js:22 | A number names a message type exactly when it is 0, 1 or 2. |
| Heic.CodeRoundTrip | src/content/blog/public/demo/heic/lib/heic.js:22 | `INIT=0`, `DECODE=1`, `FREE=2`, and the enum's two directions are inverse. |
| Heic.DropNewest | src/content/blog/public/demo/heic/lib/heic.js:44-46 | Removing the listener just added, whose ticket no other listener holds, gives back the list from before it was added. |
| Heic.Drop | src/content/blog/public/demo/heic/lib/heic.js:44-46 | Removing a listener keeps exactly the others. |
| Heic.Worker.constructor | src/content/blog/public/demo/heic/lib/heic.js:28-35 | A new worker has no messages and no listeners. |
| Heic.Worker.PostMessage | src/content/blog/public/demo/heic/lib/heic.js:49-51 | The request is appended to what was posted, and nothing else changes. |
| Heic.Worker.AddEventListener | src/content/blog/public/demo/heic/lib/heic.js:49 | The listener is added at the end, and nothing else changes. |
| Heic.Worker.RemoveEventListener | src/content/blog/public/demo/heic/lib/heic.js:44-46 | Exactly that listener is removed. |
| Heic.Worker.Terminate | src/content/blog/public/demo/heic/lib/heic.js:86 | The worker is terminated, and nothing else changes. |
| Heic.HEIFReader.constructor | src/content/blog/public/demo/heic/lib/heic.js:24-36 | It uses the static `workPort` if set, otherwise a new worker; `initialised` starts false. |
| Heic.HEIFReader.Init | src/content/blog/public/demo/heic/lib/heic.js:37-54 | If already initialised, it resolves at once and posts nothing. Without a worker it rejects with "Worker未创建". Otherwise it adds an INIT listener and posts `{type: INIT}`. |
| Heic.HEIFReader.HeifDecode | src/content/blog/public/demo/heic/lib/heic.js:59-79 | Before initialisation it rejects with "heif未初始化" and posts nothing. Without a worker it rejects with "Worker未创建". Otherwise it adds a DECODE listener and posts the bytes. |
| Heic.HEIFReader.OnMessage | src/content/blog/public/demo/heic/lib/heic.js:42-72 | A reply of another type leaves the listener in place. The awaited type removes it and settles its promise, and a successful INIT sets `initialised`. A failed reply rejects with its `error`, or `''` when it has none. |
| Heic.HEIFReader.Free | src/content/blog/public/demo/heic/lib/heic.js:83-87 | With a worker, it posts FREE, terminates the worker and clears the worker and `initialised`. Without a worker it does nothing. |
| Heic.InitHandshake | src/content/blog/public/demo/heic/lib/heic.js:37-54 | `init` on a fresh reader followed by the INIT reply posts `{type: INIT}`, leaves no listener behind, and settles its promise. It fulfils exactly when the reply reports success, and then `initialised` is set. Otherwise it rejects with the reply's `error`, or `''` when it has none. |
| Heic.DecodeHandshake | src/content/blog/public/demo/heic/lib/heic.js:59-79 | `heifDecode` on an initialised reader followed by the DECODE reply posts the bytes and leaves no listener behind. It fulfils with the payload exactly when the reply reports success and carries one. Otherwise it rejects with the reply's `error`, or `''`. |

## Left out

- Browser isolation and transport are not modelled. That covers iframe execution, `window.parent.postMessage`, message origins, and what guest code can reach. A message is a record given to `Dom.Window.Post`.
- Guest code is not executed. A guest program is a list of console calls and an optional thrown value, and the reflect-metadata import before the script is taken to succeed.
- The seed is `Math.random()`, a float written into the script. Here it is a natural number, written in decimal and compared only by equality.
- Values are stringified only for undefined, null, booleans, integers, strings, plain objects and errors. Other kinds of guest values are not modelled.
- `HTMLSandBox` has no try/catch around its markup, so no error capture is claimed for it.
- Timeouts and resource limits on guest code do not exist in the code, so the model has none.
- `HtmlBox.CodePlayground.ConnectedCallback` runs as one step, with the outcome of the two dynamic imports and of the editor creation passed in as `setup`. Monaco itself, its options, and its disposal in `disconnectedCallback` are foreign library calls.
- `HtmlBox.CodePlayground.RunCode` takes an exception thrown by `run` as the input `fault`, since `run` only assigns `srcdoc`.
- `HtmlBox.CodePlayground.OnMessage` models the callback of the current sandbox only. The callbacks of sandboxes created by earlier failed mounts stay registered, but their detached frames are not modelled.
- `HtmlBox.Skeleton.constructor` keeps only the nodes the controller queries. The skeleton's CSS and the rest of its markup are left out.
- Removing the tab-button listeners in `disconnectedCallback` is not modelled. It passes fresh arrow functions, so it removes nothing.
- The tag-name mismatch is not modelled as a pipeline. The plugin emits `<html-box>`, but the controller registers `code-playground`, so the two files are modelled separately.
- `customElements.define` guards and the installation of `self.MonacoEnvironment` are global side effects and are left out.
- `MermaidViewer.Viewer.ConnectedCallback` and `MermaidViewer.Viewer.Settle` are the two halves around the renderer's `await`. Calls that overlap in time are not modelled. The Mermaid library, its configuration and its random diagram id are foreign; only the outcome is an input.
- `RemarkCustomBlocks.Transform` visits the tree's nodes as a list in document order. The `unist-util-visit` traversal itself is a foreign library.
- `Heic.HEIFReader.HeifDecode` takes bytes already in memory, because the FileReader conversion of a Blob is I/O. The order of the two checks is kept; the worker check fails only when `free` runs during that read.
- Heic: the generator-to-promise helper and the private-field helpers are transpiler scaffolding and are left out. Replies are input events, delivered to one listener at a time by `Heic.HEIFReader.OnMessage`.
- Heic.HEIFReader.constructor: requires that a shared `workPort` is not terminated and has no listeners registered. Several readers sharing one static `workPort` would each receive the others' replies, and that is not modelled: each reader's listeners are modelled on its own worker.
- `src/content/blog/public/demo/heic/lib/heic.d.ts` holds type declarations only. `docs/.vitepress/theme/index.ts` is theme registration. `astro.config.mjs` is build configuration that repeats the base logic of `src/consts.ts`.
- `src/scripts/util.ts`, which `CodePlayground` imports, is not part of this model.
- Strings are sequences of Unicode scalar values. `encodeURIComponent`'s `URIError` on a lone surrogate cannot arise.
- SandboxClient.SandBox.constructor: uses the corrected lookup by id (`SandboxClient.AcquireFrame`), not the tag-name lookup the code performs (see Findings). The lookup as written is `SandboxClient.AcquireFrameAsWritten`, and `SandboxClient.TwoFramesAsWritten` shows its effect.
- SandboxLegacy.SandBox.constructor: uses the same corrected lookup by id. docs/.vitepress/theme/util.ts:6 has the same `querySelector(id)` as the keyed sandbox, and its as-written behaviour is that of `SandboxClient.AcquireFrameAsWritten`.
- Dom.Document.QuerySelector: only `#id` and bare tag-name selectors are modelled. Other CSS syntax, and the `SyntaxError` that `querySelector` throws for an invalid selector, are not.
- Dom.React: a `MessageData` field is `None` both when the property is missing and when it has another type. The code would join a non-string `args` array such as `[1, 2]` into `"1\n2"`, or throw for a non-array value. The model reads any `args` that is not a string array as missing, so it throws. The bootstraps always post string arrays.
- HtmlBox.KindText: a non-string `method` shows in the code as its `String(...)` text. The model reads it as missing and shows `undefined`.
- ConsoleShim.CallToString: `Integer(n)` stands for a JavaScript number whose `toString()` is its plain decimal numeral, that is |n| < 10^21. Larger numbers print in exponent notation (`1e+21`), and that is not modelled.

## Findings

| source | as written | input that shows it | evidently intended | confidence | as-written member | corrected member |
|---|---|---|---|---|---|---|
| docs/.vitepress/theme/util.client.ts:7 | `document.querySelector(id)` with the default id `sandbox-iframe` reads the id as a tag-name selector. The same code is in docs/.vitepress/theme/util.ts:6. | Take a page whose body holds the hidden iframe an earlier `SandBox` created (tag `iframe`, id `sandbox-iframe`) and no `<sandbox-iframe>` element. The lookup returns null, so every new `SandBox` appends another hidden iframe. | Reuse the frame with that id (a lookup by id) | not executed | Dom.Document.QuerySelector, Dom.QuerySelectorMissesOwnFrame, SandboxClient.AcquireFrameAsWritten, SandboxClient.TwoFramesAsWritten | Dom.Document.FindById, SandboxClient.AcquireFrame, SandboxClient.OneFrameById |
