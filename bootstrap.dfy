/**
 * The text of the documents the sandboxes assign to their iframe's `srcdoc`: a script that installs the console
 * wrappers (the text of a `ConsoleShim.Shim`), followed by the guest's code. The script sandboxes put the code in
 * a guarded region after loading reflect-metadata; the HTML sandbox puts the markup after the script.
 */
module Bootstrap {
  import opened Wrappers
  import opened Text
  import opened Dom
  import opened ConsoleShim

  /** The line that embeds the seed, as the template interpolates `${this.seed}`. */
  function SeedLine(seed: Seed): string {
    SeedIndent + "seed: " + NatToDecimal(seed) + ",\n"
  }

  const SeedIndent: string := "                "

  /** The body of the `args.map` callback for each stringifier. */
  function MapBody(st: Stringifier): string {
    match st
    case PlainToString => "                  return arg.toString();\n"
    case NullSafe =>
      "                  if (Object.is(arg, undefined)) return 'undefined';\n"
      + "                  if (Object.is(arg, null)) return 'null';\n"
      + "                  return arg.toString();\n"
  }

  const ShimOpening: string :=
    "        // \U{52AB}\U{6301} console\n"
    + "        const methods = ['log', 'error', 'warn', 'info', 'debug'];\n"
    + "        methods.forEach((method) => {\n"
    + "          const original = console[method];\n"
    + "          console[method] = (...args) => {\n"
    + "            window.parent.postMessage(\n"
    + "              {\n"
    + "                type: 'console',\n"
    + "                method,\n"

  const ShimClosing: string :=
    "                }),\n"
    + "              },\n"
    + "              '*',\n"
    + "            );\n"
    + "            original.apply(console, args);\n"
    + "          };\n"
    + "        });\n"

  /** The statements of the bootstrap script that install the wrappers described by `shim`. */
  function ShimText(shim: Shim): string {
    ShimOpening + (match shim.seed case None => "" case Some(s) => SeedLine(s)) + ArgsMapping(shim.stringifier)
  }

  /** The `args` field of the posted record and the rest of the wrapper. */
  function ArgsMapping(st: Stringifier): string {
    "                args: args.map((arg) => {\n" + MapBody(st) + ShimClosing
  }

  const TryOpening: string := "            try {\n              "

  const CatchClause: string := ";\n            } catch (e) {\n              console.error(e);"

  const CatchToConsoleError: string :=
    CatchClause + "\n            }\n          },\n        );\n      </script>\n    "

  /** The module script up to the guarded region: the wrappers and the import of reflect-metadata. */
  function ModulePreamble(shim: Shim): string {
    "\n      <script type=\"module\">\n"
    + ShimText(shim)
    + "\n        // \U{52A0}\U{8F7D} reflect-metadata\n"
    + "        import('https://unpkg.com/reflect-metadata@0.1.13/Reflect.js').then(\n"
    + "          () => {\n"
  }

  /** Everything of a script sandbox's document that comes before the guest code. */
  function ModuleHead(shim: Shim): string {
    ModulePreamble(shim) + TryOpening
  }

  /** The document of the two script sandboxes: the wrappers, then `jsCode` inside try/catch once reflect-metadata loaded. */
  function ModuleDocument(shim: Shim, jsCode: string): string {
    ModuleHead(shim) + jsCode + CatchToConsoleError
  }

  const ScriptClose: string := "      </script>\n      "

  /** Everything of the HTML sandbox's document that comes before the guest markup. */
  function HtmlHead(shim: Shim): string {
    ("\n      <script>\n" + ShimText(shim)) + ScriptClose
  }

  /** The document of the HTML sandbox: the wrappers in a classic script, then `htmlCode`, unguarded. */
  function HtmlDocument(shim: Shim, htmlCode: string): string {
    HtmlHead(shim) + htmlCode + "\n    "
  }

  predicate StartsWith(s: string, p: string) { |p| <= |s| && s[..|p|] == p }
  predicate EndsWith(s: string, p: string) { |p| <= |s| && s[|s| - |p|..] == p }

  lemma Pieces(a: string, b: string, c: string)
    ensures |a + b + c| == |a| + |b| + |c|
    ensures (a + b + c)[..|a|] == a && (a + b + c)[|a|..|a| + |b|] == b && (a + b + c)[|a| + |b|..] == c
  {
  }

  lemma Assoc(a: string, b: string, c: string, d: string, e: string, f: string)
    ensures a + (b + c + d + e) + f == (a + b) + c + d + (e + f)
  {
  }

  lemma EndsWithSuffix(x: string, t: string, u: string)
    requires EndsWith(t, u)
    ensures EndsWith(x + t, u)
  {
    assert (x + t)[|x + t| - |u|..] == t[|t| - |u|..];
  }

  /**
   * The script document holds the guest code verbatim, right after `try {` and right before the catch that reports
   * through `console.error`; everything before it depends on the shim alone, not on the code.
   */
  lemma ModuleDocumentLayout(shim: Shim, jsCode: string)
    ensures var doc := ModuleDocument(shim, jsCode); var n := |ModuleHead(shim)|;
      |doc| == n + |jsCode| + |CatchToConsoleError| &&
      doc[..n] == ModuleHead(shim) && doc[n..n + |jsCode|] == jsCode && doc[n + |jsCode|..] == CatchToConsoleError &&
      EndsWith(ModuleHead(shim), "try {\n              ") &&
      StartsWith(CatchToConsoleError, CatchClause)
  {
    Pieces(ModuleHead(shim), jsCode, CatchToConsoleError);
    assert EndsWith(TryOpening, "try {\n              ");
    EndsWithSuffix(ModulePreamble(shim), TryOpening, "try {\n              ");
  }

  /** The HTML document holds the markup verbatim, right after the closing tag of the bootstrap script. */
  lemma HtmlDocumentLayout(shim: Shim, htmlCode: string)
    ensures var doc := HtmlDocument(shim, htmlCode); var n := |HtmlHead(shim)|;
      doc[..n] == HtmlHead(shim) && doc[n..n + |htmlCode|] == htmlCode && doc[n + |htmlCode|..] == "\n    " &&
      EndsWith(HtmlHead(shim), "</script>\n      ")
  {
    Pieces(HtmlHead(shim), htmlCode, "\n    ");
    assert EndsWith(ScriptClose, "</script>\n      ");
    EndsWithSuffix("\n      <script>\n" + ShimText(shim), ScriptClose, "</script>\n      ");
  }

  /** A seeded bootstrap spells its seed as a decimal literal, which the guest's script evaluates back to the same seed. */
  lemma SeedLiteral(seed: Seed, st: Stringifier)
    ensures exists pre, post :: ShimText(Shim(Some(seed), st)) == pre + "seed: " + NatToDecimal(seed) + post
    ensures DecimalValue(NatToDecimal(seed)) == seed
  {
    var pre := ShimOpening + SeedIndent;
    var post := ",\n" + ArgsMapping(st);
    var lit := NatToDecimal(seed);
    Assoc(ShimOpening, SeedIndent, "seed: ", lit, ",\n", ArgsMapping(st));
    DecimalRoundTrip(seed);
  }
}
