/**
 * The guest side of the sandbox protocol: the bootstrap script both sandbox files inject. It wraps five console
 * methods; each wrapper stringifies its arguments, posts `{type: 'console', method, seed?, args}` to the parent
 * window and then calls the original method. Guest code itself is not executed here: a guest program is given
 * as the console calls it makes and whether it ends by throwing.
 */
module ConsoleShim {
  import opened Wrappers
  import opened Text
  import opened Dom

  /** The console methods the bootstrap wraps, in the order it wraps them. */
  const WrappedMethods: seq<string> := ["log", "error", "warn", "info", "debug"]

  /** The guest values the model distinguishes when they are logged or thrown. */
  datatype GuestValue =
    | Undefined
    | Null
    | Boolean(b: bool)
    | Integer(n: int)
    | Str(s: string)
    | PlainObject
    | ErrorObject(name: string, message: string)

  function IntToDecimal(n: int): string {
    if n < 0 then "-" + NatToDecimal(-n) else NatToDecimal(n)
  }

  /** `Error.prototype.toString` (section 20.5.3.4 of ECMA-262). */
  function ErrorToString(name: string, message: string): string {
    if name == "" then message else if message == "" then name else name + ": " + message
  }

  /** `arg.toString()`: an error (the TypeError's message) for undefined and null, which have no methods. */
  function CallToString(v: GuestValue): (r: Result<string>)
    ensures r.Err? <==> v.Undefined? || v.Null?
  {
    match v
    case Undefined => Err("Cannot read properties of undefined (reading 'toString')")
    case Null => Err("Cannot read properties of null (reading 'toString')")
    case Boolean(b) => Ok(if b then "true" else "false")
    case Integer(n) => Ok(IntToDecimal(n))
    case Str(s) => Ok(s)
    case PlainObject => Ok("[object Object]")
    case ErrorObject(name, message) => Ok(ErrorToString(name, message))
  }

  /** The stringifier of the `HTMLSandBox` bootstrap: undefined and null first, `toString()` for the rest. */
  function NullSafeString(v: GuestValue): string {
    if v.Undefined? then "undefined"
    else if v.Null? then "null"
    else CallToString(v).value
  }

  /** Which mapping a bootstrap applies to console arguments. */
  datatype Stringifier = PlainToString | NullSafe

  /** What distinguishes one installed bootstrap from another: the seed it embeds (none in the tokenless variant) and its stringifier. */
  datatype Shim = Shim(seed: Option<Seed>, stringifier: Stringifier)

  /** `args.map(...)`: the strings in order, or the error of the first argument whose conversion throws. */
  function StringifyAll(st: Stringifier, args: seq<GuestValue>): (r: Result<seq<string>>)
    ensures r.Ok? ==> |r.value| == |args|
    ensures r.Ok? <==> st.NullSafe? || forall i :: 0 <= i < |args| ==> !args[i].Undefined? && !args[i].Null?
    ensures r.Ok? && st.NullSafe? ==> forall i :: 0 <= i < |args| ==> r.value[i] == NullSafeString(args[i])
    ensures r.Ok? && st.PlainToString? ==> forall i :: 0 <= i < |args| ==> Ok(r.value[i]) == CallToString(args[i])
  {
    if args == [] then Ok([])
    else
      var head := if st.NullSafe? then Ok(NullSafeString(args[0])) else CallToString(args[0]);
      match head
      case Err(e) => Err(e)
      case Ok(s) =>
        match StringifyAll(st, args[1..])
        case Err(e) => Err(e)
        case Ok(rest) => Ok([s] + rest)
  }

  /** The record a wrapper posts to the parent window. */
  function OutputRecord(shim: Shim, methodName: string, strs: seq<string>): MessageData {
    Record(Some("console"), Some(methodName), shim.seed, Some(strs))
  }

  /** What a console call does outside the guest: a message to the parent window, and the original method running. */
  datatype Effect = Post(data: MessageData) | CallOriginal(methodName: string, args: seq<GuestValue>)

  /** The effects of running guest code, and the exception that escaped it, if any. */
  datatype RunResult = RunResult(effects: seq<Effect>, uncaught: Option<GuestValue>)

  /** A guest's `console[methodName](...args)` once the bootstrap is installed. */
  function ConsoleCall(shim: Shim, methodName: string, args: seq<GuestValue>): RunResult {
    if methodName !in WrappedMethods then RunResult([CallOriginal(methodName, args)], None)
    else
      match StringifyAll(shim.stringifier, args)
      case Err(e) => RunResult([], Some(ErrorObject("TypeError", e)))
      case Ok(strs) => RunResult([Post(OutputRecord(shim, methodName, strs)), CallOriginal(methodName, args)], None)
  }

  /** One console call a guest program makes. */
  datatype GuestStep = Console(methodName: string, args: seq<GuestValue>)

  /** A guest program, as far as the host can observe it: its console calls in order, and whether it then throws. */
  datatype GuestProgram = GuestProgram(steps: seq<GuestStep>, throws: Option<GuestValue>)

  /** The console calls run in order; the first one that throws ends the program. */
  function RunSteps(shim: Shim, steps: seq<GuestStep>): RunResult {
    if steps == [] then RunResult([], None)
    else
      var c := ConsoleCall(shim, steps[0].methodName, steps[0].args);
      if c.uncaught.Some? then c
      else
        var rest := RunSteps(shim, steps[1..]);
        RunResult(c.effects + rest.effects, rest.uncaught)
  }

  /** Top-level evaluation of a guest program without a guard (the `HTMLSandBox` document). */
  function Execute(shim: Shim, p: GuestProgram): RunResult {
    var r := RunSteps(shim, p.steps);
    if r.uncaught.Some? then r else RunResult(r.effects, p.throws)
  }

  /** `try { code } catch (e) { console.error(e) }`: what the two script-sandbox documents run. */
  function Guarded(shim: Shim, p: GuestProgram): RunResult {
    var r := Execute(shim, p);
    match r.uncaught
    case None => r
    case Some(e) =>
      var c := ConsoleCall(shim, "error", [e]);
      RunResult(r.effects + c.effects, c.uncaught)
  }

  /** The messages posted to the parent window, in order. */
  function Posts(effects: seq<Effect>): seq<MessageData> {
    if effects == [] then []
    else (if effects[0].Post? then [effects[0].data] else []) + Posts(effects[1..])
  }

  lemma {:induction false} PostsAppend(a: seq<Effect>, b: seq<Effect>)
    ensures Posts(a + b) == Posts(a) + Posts(b)
  {
    if a == [] {
      assert a + b == b;
    } else {
      PostsAppend(a[1..], b);
      assert (a + b)[1..] == a[1..] + b;
    }
  }

  /** A wrapper call that succeeds posts exactly its one record. */
  lemma PostsOfWrappedCall(shim: Shim, methodName: string, args: seq<GuestValue>)
    requires methodName in WrappedMethods && StringifyAll(shim.stringifier, args).Ok?
    ensures Posts(ConsoleCall(shim, methodName, args).effects)
         == [OutputRecord(shim, methodName, StringifyAll(shim.stringifier, args).value)]
  {
    var effects := ConsoleCall(shim, methodName, args).effects;
    assert effects[1..] == [CallOriginal(methodName, args)];
    assert effects[1..][1..] == [];
    assert Posts(effects[1..]) == [];
    assert Posts(effects) == [effects[0].data] + [];
  }

  /** What every message a bootstrap posts looks like: kind console, a wrapped method, the bootstrap's seed, an args array. */
  predicate PostedBy(shim: Shim, d: MessageData) {
    d.Record? && d.kind == Some("console") && d.methodName.Some? && d.methodName.value in WrappedMethods
    && d.seed == shim.seed && d.args.Some?
  }

  predicate AllPostedBy(shim: Shim, effects: seq<Effect>) {
    forall i :: 0 <= i < |effects| ==> effects[i].Post? ==> PostedBy(shim, effects[i].data)
  }

  lemma {:induction false} RunStepsPostedBy(shim: Shim, steps: seq<GuestStep>)
    ensures AllPostedBy(shim, RunSteps(shim, steps).effects)
  {
    if steps != [] {
      RunStepsPostedBy(shim, steps[1..]);
    }
  }

  /** An unguarded guest program posts only messages that carry its bootstrap's seed. */
  lemma ExecutePostedBy(shim: Shim, p: GuestProgram)
    ensures AllPostedBy(shim, Execute(shim, p).effects)
  {
    RunStepsPostedBy(shim, p.steps);
  }

  /** A guarded guest program posts only messages that carry its bootstrap's seed, whatever it logs or throws. */
  lemma GuardedPostedBy(shim: Shim, p: GuestProgram)
    ensures AllPostedBy(shim, Guarded(shim, p).effects)
  {
    RunStepsPostedBy(shim, p.steps);
  }

  /** `console.log(1 + 1)` posts exactly one message, `['2']` as log, with the seed of the bootstrap. */
  lemma LogOnePlusOne(shim: Shim)
    ensures Posts(Guarded(shim, GuestProgram([Console("log", [Integer(1 + 1)])], None)).effects)
         == [Record(Some("console"), Some("log"), shim.seed, Some(["2"]))]
  {
    assert [Integer(2)][1..] == [];
    assert NatToDecimal(2) == "2";
    var strs := StringifyAll(shim.stringifier, [Integer(2)]);
    assert strs.Ok? && strs.value[0] == "2";
    assert strs.value == ["2"];
    var c := ConsoleCall(shim, "log", [Integer(2)]);
    assert "log" in WrappedMethods;
    PostsOfWrappedCall(shim, "log", [Integer(2)]);
    var steps := [Console("log", [Integer(1 + 1)])];
    assert steps[1..] == [];
    assert c.effects + [] == c.effects;
    assert RunSteps(shim, steps) == RunResult(c.effects, None);
  }

  /** The null-safe stringifier never throws, so its wrappers always post and then call the original method. */
  lemma NullSafeNeverThrows(seed: Option<Seed>, methodName: string, args: seq<GuestValue>)
    requires methodName in WrappedMethods
    ensures var r := ConsoleCall(Shim(seed, NullSafe), methodName, args);
      r.uncaught.None? && |r.effects| == 2 && r.effects[0].Post? && r.effects[1] == CallOriginal(methodName, args)
  {
  }

  /** A guest that logs without failing and then throws an Error: one extra `error` message carrying the error's text. */
  lemma {:induction false} ErrorCaptured(shim: Shim, steps: seq<GuestStep>, name: string, message: string)
    requires RunSteps(shim, steps).uncaught.None?
    ensures var r := Guarded(shim, GuestProgram(steps, Some(ErrorObject(name, message))));
      r.uncaught.None? &&
      Posts(r.effects) == Posts(RunSteps(shim, steps).effects)
        + [Record(Some("console"), Some("error"), shim.seed, Some([ErrorToString(name, message)]))]
  {
    var e := ErrorObject(name, message);
    var head := RunSteps(shim, steps).effects;
    assert [e][1..] == [];
    var strs := StringifyAll(shim.stringifier, [e]);
    assert strs.Ok? && strs.value[0] == ErrorToString(name, message);
    assert strs.value == [ErrorToString(name, message)];
    var c := ConsoleCall(shim, "error", [e]);
    PostsAppend(head, c.effects);
    assert "error" in WrappedMethods;
    PostsOfWrappedCall(shim, "error", [e]);
  }

  /** With `arg.toString()`, logging undefined throws inside the wrapper: nothing is posted and the original is not called. */
  lemma PlainToStringThrowsOnUndefined(seed: Option<Seed>, methodName: string)
    requires methodName in WrappedMethods
    ensures var r := ConsoleCall(Shim(seed, PlainToString), methodName, [Undefined]);
      r.effects == [] && r.uncaught.Some? && r.uncaught.value.ErrorObject?
  {
  }
}
