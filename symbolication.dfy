/**
  The channel wrapper of src/index.tsx (`symbolicatedConsole`): for one call
  of a wrapped console channel, every argument that is an error with a
  non-empty stack is sent to the symbolication service; a non-empty answer
  rewrites that error's `stack` in place, an exception is reported through
  the fallback logger, and in the end the original channel receives all the
  arguments, in their order.

  The asynchronous `args.map(async ...)` is modelled by its two halves,
  both in argument order: first the synchronous part of every callback
  (classify the argument, read its stack, issue the request), then the
  continuations after `await` (write the stack or report the failure).
  Every request therefore sees the stack as it was when the channel was
  called, even when one error object is passed twice.
*/
module Symbolication {
  import opened Wrappers
  import opened StackFormat

  /** A JavaScript `Error`: its `message`, and a `stack` that may be undefined. */
  class ErrorObject {
    var message: string
    var stack: Option<string>

    constructor (message: string, stack: Option<string>)
      ensures this.message == message && this.stack == stack
    {
      this.message := message;
      this.stack := stack;
    }
  }

  /** A logged argument: a string, any other value (opaque), or an `Error` (by reference). */
  datatype Value = Str(text: string) | Opaque(token: nat) | ErrorValue(err: ErrorObject)

  /** What parsing and symbolicating one stack yields: an exception (a null answer included), or the resolved frames ([] when the answer has no or an empty `stack`). */
  datatype Resolution = Threw(thrown: Value) | Frames(frames: seq<Frame>)

  /**
    A console function value: one the system had (a native function, by
    identity), or a wrapper closing over its original, the fallback logger and
    the exclusion option (`symbolicatedConsole(original, {logError, excludeReactNativeCoreFrames})`).
  */
  datatype Slot = Native(id: nat) | Wrapper(original: Slot, logError: Slot, excludeCoreFrames: bool)

  /** One call of a console function, with its arguments. */
  datatype Call = Call(target: Slot, args: seq<Value>)

  /** The calls the wrapper makes to the functions it closed over, in order. */
  class CallLog {
    var calls: seq<Call>

    constructor ()
      ensures calls == []
    {
      calls := [];
    }

    method Record(c: Call)
      modifies this
      ensures calls == old(calls) + [c]
    {
      calls := calls + [c];
    }
  }

  /**
    `symbolicateStackTrace(parseErrorStack(stack))` as an oracle: the answer
    to the n-th request may depend on n and on the stack text; every request
    is recorded.
  */
  class Symbolicator {
    const respond: (nat, string) -> Resolution
    var requests: seq<string>

    constructor (respond: (nat, string) -> Resolution)
      ensures this.respond == respond && requests == []
    {
      this.respond := respond;
      requests := [];
    }

    method Resolve(stack: string) returns (r: Resolution)
      modifies this
      ensures requests == old(requests) + [stack]
      ensures r == respond(|old(requests)|, stack)
    {
      r := respond(|requests|, stack);
      requests := requests + [stack];
    }
  }

  /** The first argument of every report to the fallback logger. */
  const FailurePrefix := "Error during symbolication:"

  // ---------------------------------------------------------------------
  // Classification
  // ---------------------------------------------------------------------

  /** How the wrapper sees an argument: inert, or an error with its message and stack. */
  datatype ArgView = Inert | ErrorView(message: string, stack: Option<string>)

  function ViewOf(v: Value): ArgView
    reads if v.ErrorValue? then {v.err} else {}
  {
    match v
    case ErrorValue(e) => ErrorView(e.message, e.stack)
    case _ => Inert
  }

  /** `arg instanceof Error && arg.stack` is truthy. */
  predicate Qualifies(v: ArgView)
  {
    v.ErrorView? && v.stack.Some? && v.stack.value != ""
  }

  function MessageOf(v: ArgView): string
  {
    if v.ErrorView? then v.message else ""
  }

  /** The error objects among the arguments. */
  ghost function ObjectsOf(args: seq<Value>): set<ErrorObject>
  {
    set k | 0 <= k < |args| && args[k].ErrorValue? :: args[k].err
  }

  /** The arguments as the wrapper sees them in the current state. */
  ghost function Snapshot(args: seq<Value>): seq<ArgView>
    reads ObjectsOf(args)
  {
    seq(|args|, k requires 0 <= k < |args| reads ObjectsOf(args) => ViewOf(args[k]))
  }

  // ---------------------------------------------------------------------
  // The specification of one wrapped call
  // ---------------------------------------------------------------------

  /** The stacks sent to the symbolication service, in argument order. */
  ghost function QualifyingStacks(views: seq<ArgView>): seq<string>
  {
    if views == [] then []
    else
      var last := views[|views| - 1];
      QualifyingStacks(views[..|views| - 1]) + (if Qualifies(last) then [last.stack.value] else [])
  }

  /** The answer argument k receives: none unless it qualifies, else the one to its own request. */
  ghost function ResponseAt(respond: (nat, string) -> Resolution, start: nat, views: seq<ArgView>, k: nat): Option<Resolution>
    requires k < |views|
  {
    if Qualifies(views[k]) then Some(respond(start + |QualifyingStacks(views[..k])|, views[k].stack.value))
    else None
  }

  /** What the continuation of one argument does. */
  datatype Effect = Keep | SetStack(stack: string) | Report(thrown: Value)

  /** The continuation after `await`: empty answers keep the stack, exceptions are reported, frames rewrite it. */
  function Settle(excludeCoreFrames: bool, message: string, response: Option<Resolution>): Effect
  {
    match response
    case None => Keep
    case Some(Threw(t)) => Report(t)
    case Some(Frames(fs)) => if |fs| == 0 then Keep else SetStack(RewrittenStack(excludeCoreFrames, message, fs))
  }

  ghost function EffectAt(excludeCoreFrames: bool, respond: (nat, string) -> Resolution, start: nat, views: seq<ArgView>, k: nat): Effect
    requires k < |views|
  {
    Settle(excludeCoreFrames, MessageOf(views[k]), ResponseAt(respond, start, views, k))
  }

  ghost function Effects(excludeCoreFrames: bool, respond: (nat, string) -> Resolution, start: nat, views: seq<ArgView>): seq<Effect>
  {
    seq(|views|, k requires 0 <= k < |views| => EffectAt(excludeCoreFrames, respond, start, views, k))
  }

  /** One report per failed argument, in argument order: `logError('Error during symbolication:', thrown)`. */
  ghost function Reports(logError: Slot, effects: seq<Effect>): seq<Call>
  {
    if effects == [] then []
    else
      var last := effects[|effects| - 1];
      Reports(logError, effects[..|effects| - 1])
        + (if last.Report? then [Call(logError, [Str(FailurePrefix), last.thrown])] else [])
  }

  /** The stack an object ends with: that of its last rewrite, or the one it had. */
  ghost function FinalStack(args: seq<Value>, effects: seq<Effect>, o: ErrorObject, init: Option<string>): Option<string>
    requires |args| == |effects|
  {
    if args == [] then init
    else
      var n := |args| - 1;
      if args[n] == ErrorValue(o) && effects[n].SetStack? then Some(effects[n].stack)
      else FinalStack(args[..n], effects[..n], o, init)
  }

  /**
    What one call of a wrapper does: the qualifying stacks are requested in
    order, each failure is reported once, the original channel is called
    once with the same arguments, and error objects change only in `stack`.
  */
  twostate predicate WrapperCallDone(original: Slot, logError: Slot, excludeCoreFrames: bool,
                                     args: seq<Value>, sym: Symbolicator, out: CallLog)
    reads ObjectsOf(args), sym, out
  {
    var views := old(Snapshot(args));
    var effects := Effects(excludeCoreFrames, sym.respond, |old(sym.requests)|, views);
    && sym.requests == old(sym.requests) + QualifyingStacks(views)
    && out.calls == old(out.calls) + Reports(logError, effects) + [Call(original, args)]
    && forall o :: o in ObjectsOf(args) ==>
         o.message == old(o.message) && o.stack == FinalStack(args, effects, o, old(o.stack))
  }

  // ---------------------------------------------------------------------
  // Properties of the specification
  // ---------------------------------------------------------------------

  /** An argument that is not an error with a non-empty stack gets no request and no effect. */
  lemma NonQualifyingPassesThrough(excludeCoreFrames: bool, respond: (nat, string) -> Resolution,
                                   start: nat, views: seq<ArgView>, k: nat)
    requires k < |views| && !Qualifies(views[k])
    ensures ResponseAt(respond, start, views, k) == None
    ensures EffectAt(excludeCoreFrames, respond, start, views, k) == Keep
  {
  }

  /** When no argument qualifies, the symbolication service is never consulted. */
  lemma {:induction false} NothingQualifiesNoRequests(views: seq<ArgView>)
    requires forall k :: 0 <= k < |views| ==> !Qualifies(views[k])
    ensures QualifyingStacks(views) == []
  {
    if views != [] {
      NothingQualifiesNoRequests(views[..|views| - 1]);
    }
  }

  /** The requests made for a prefix of the arguments are a prefix of all requests. */
  lemma {:induction false} RequestsOfPrefix(views: seq<ArgView>, n: nat)
    requires n <= |views|
    ensures QualifyingStacks(views[..n]) <= QualifyingStacks(views)
    decreases |views|
  {
    if n < |views| {
      var init := views[..|views| - 1];
      assert views[..n] == init[..n];
      RequestsOfPrefix(init, n);
    } else {
      assert views[..n] == views;
    }
  }

  /** The request numbered for argument k carries exactly k's own stack. */
  lemma RequestOfArgument(views: seq<ArgView>, k: nat)
    requires k < |views| && Qualifies(views[k])
    ensures |QualifyingStacks(views[..k])| < |QualifyingStacks(views)|
    ensures QualifyingStacks(views)[|QualifyingStacks(views[..k])|] == views[k].stack.value
  {
    assert views[..k + 1][..k] == views[..k];
    RequestsOfPrefix(views, k + 1);
  }

  /** Two qualifying arguments never share a request number. */
  lemma {:induction false} RequestNumbersIncrease(views: seq<ArgView>, j: nat, i: nat)
    requires j < i <= |views| && Qualifies(views[j])
    ensures |QualifyingStacks(views[..j])| < |QualifyingStacks(views[..i])|
  {
    if i == j + 1 {
      assert views[..j + 1][..j] == views[..j];
    } else {
      RequestNumbersIncrease(views, j, i - 1);
      assert views[..i][..i - 1] == views[..i - 1];
    }
  }

  /**
    Failure containment: whatever the service answers to argument i's request
    (an exception included), the effects of all other arguments stay the same.
  */
  lemma FailureIsContained(excludeCoreFrames: bool, respond1: (nat, string) -> Resolution,
                           respond2: (nat, string) -> Resolution, start: nat, views: seq<ArgView>, i: nat)
    requires i < |views| && Qualifies(views[i])
    requires forall n: nat, stack: string :: n != start + |QualifyingStacks(views[..i])| ==> respond1(n, stack) == respond2(n, stack)
    ensures forall j :: 0 <= j < |views| && j != i ==>
              EffectAt(excludeCoreFrames, respond1, start, views, j) == EffectAt(excludeCoreFrames, respond2, start, views, j)
  {
    forall j | 0 <= j < |views| && j != i
      ensures EffectAt(excludeCoreFrames, respond1, start, views, j) == EffectAt(excludeCoreFrames, respond2, start, views, j)
    {
      if Qualifies(views[j]) {
        if j < i {
          RequestNumbersIncrease(views, j, i);
        } else {
          RequestNumbersIncrease(views, i, j);
        }
      }
    }
  }

  /** Without a failing argument, the fallback logger is never called. */
  lemma {:induction false} NoFailureNoReport(logError: Slot, effects: seq<Effect>)
    requires forall k :: 0 <= k < |effects| ==> !effects[k].Report?
    ensures Reports(logError, effects) == []
  {
    if effects != [] {
      NoFailureNoReport(logError, effects[..|effects| - 1]);
    }
  }

  /** A single failing argument yields exactly one report, with the fixed prefix and the thrown value. */
  lemma {:induction false} OneFailureOneReport(logError: Slot, effects: seq<Effect>, i: nat)
    requires i < |effects| && effects[i].Report?
    requires forall k :: 0 <= k < |effects| && k != i ==> !effects[k].Report?
    ensures Reports(logError, effects) == [Call(logError, [Str(FailurePrefix), effects[i].thrown])]
  {
    var n := |effects| - 1;
    if i == n {
      NoFailureNoReport(logError, effects[..n]);
    } else {
      OneFailureOneReport(logError, effects[..n], i);
    }
  }

  /** Extending the arguments by one adds that argument's report, if any. */
  lemma ReportsStep(logError: Slot, effects: seq<Effect>, i: nat)
    requires i < |effects|
    ensures Reports(logError, effects[..i + 1])
         == Reports(logError, effects[..i])
            + (if effects[i].Report? then [Call(logError, [Str(FailurePrefix), effects[i].thrown])] else [])
  {
    assert effects[..i + 1][..i] == effects[..i];
  }

  /** Extending the arguments by one applies that argument's rewrite, if any. */
  lemma FinalStackStep(args: seq<Value>, effects: seq<Effect>, o: ErrorObject, init: Option<string>, i: nat)
    requires |args| == |effects| && i < |args|
    ensures FinalStack(args[..i + 1], effects[..i + 1], o, init)
         == if args[i] == ErrorValue(o) && effects[i].SetStack? then Some(effects[i].stack)
            else FinalStack(args[..i], effects[..i], o, init)
  {
    assert args[..i + 1][..i] == args[..i];
    assert effects[..i + 1][..i] == effects[..i];
  }

  /** An object no effect rewrites keeps the stack it had. */
  lemma {:induction false} FinalStackUntouched(args: seq<Value>, effects: seq<Effect>, o: ErrorObject, init: Option<string>)
    requires |args| == |effects|
    requires forall k :: 0 <= k < |args| && args[k] == ErrorValue(o) ==> !effects[k].SetStack?
    ensures FinalStack(args, effects, o, init) == init
  {
    if args != [] {
      var n := |args| - 1;
      FinalStackUntouched(args[..n], effects[..n], o, init);
    }
  }

  /** An object passed once ends with the stack its own effect gives it. */
  lemma {:induction false} FinalStackOfSoleArgument(args: seq<Value>, effects: seq<Effect>, o: ErrorObject,
                                                    init: Option<string>, i: nat)
    requires |args| == |effects| && i < |args| && args[i] == ErrorValue(o)
    requires forall k :: 0 <= k < |args| && k != i ==> args[k] != ErrorValue(o)
    ensures FinalStack(args, effects, o, init) == if effects[i].SetStack? then Some(effects[i].stack) else init
  {
    var n := |args| - 1;
    if i == n {
      if !effects[n].SetStack? {
        FinalStackUntouched(args[..n], effects[..n], o, init);
      }
    } else {
      FinalStackOfSoleArgument(args[..n], effects[..n], o, init, i);
    }
  }

  /**
    The per-argument state machine for an error passed once: its stack is
    rewritten from the message and the frames when the service resolves a
    non-empty list, and otherwise (not qualifying, an exception, no frames)
    it keeps exactly the stack it had.
  */
  lemma ArgumentOutcome(excludeCoreFrames: bool, respond: (nat, string) -> Resolution, start: nat,
                        args: seq<Value>, views: seq<ArgView>, o: ErrorObject, i: nat)
    requires |views| == |args| && i < |args| && args[i] == ErrorValue(o) && views[i].ErrorView?
    requires forall k :: 0 <= k < |args| && k != i ==> args[k] != ErrorValue(o)
    ensures var r := ResponseAt(respond, start, views, i);
            FinalStack(args, Effects(excludeCoreFrames, respond, start, views), o, views[i].stack)
            == if r.Some? && r.value.Frames? && |r.value.frames| > 0
               then Some(RewrittenStack(excludeCoreFrames, views[i].message, r.value.frames))
               else views[i].stack
  {
    FinalStackOfSoleArgument(args, Effects(excludeCoreFrames, respond, start, views), o, views[i].stack, i);
  }

  // ---------------------------------------------------------------------
  // The wrapper
  // ---------------------------------------------------------------------

  /** Calling `symbolicatedConsole(original, {logError, excludeCoreFrames})` with `args`. */
  method SymbolicatedCall(original: Slot, logError: Slot, excludeCoreFrames: bool,
                          args: seq<Value>, sym: Symbolicator, out: CallLog)
    modifies ObjectsOf(args), sym, out
    ensures WrapperCallDone(original, logError, excludeCoreFrames, args, sym, out)
  {
    ghost var views := Snapshot(args);
    ghost var effects := Effects(excludeCoreFrames, sym.respond, |sym.requests|, views);
    var responses := RequestAll(args, sym);
    SettleAll(logError, excludeCoreFrames, args, responses, effects, out);
    out.Record(Call(original, args));
  }

  /** The synchronous part of every callback, in argument order: classify the argument and, if it qualifies, request its stack. */
  method RequestAll(args: seq<Value>, sym: Symbolicator) returns (responses: seq<Option<Resolution>>)
    modifies sym
    ensures sym.requests == old(sym.requests) + QualifyingStacks(Snapshot(args))
    ensures |responses| == |args|
    ensures forall k :: 0 <= k < |args| ==> responses[k] == ResponseAt(sym.respond, |old(sym.requests)|, Snapshot(args), k)
  {
    ghost var views := Snapshot(args);
    responses := [];
    var i := 0;
    while i < |args|
      invariant 0 <= i <= |args|
      invariant Snapshot(args) == views
      invariant sym.requests == old(sym.requests) + QualifyingStacks(views[..i])
      invariant |responses| == i
      invariant forall k :: 0 <= k < i ==> responses[k] == ResponseAt(sym.respond, |old(sym.requests)|, views, k)
    {
      assert views[..i + 1][..i] == views[..i];
      var r: Option<Resolution> := None;
      assert views[i] == ViewOf(args[i]);
      match args[i] {
        case ErrorValue(o) =>
          if o.stack.Some? && o.stack.value != "" {
            var res := sym.Resolve(o.stack.value);
            r := Some(res);
          }
        case _ =>
      }
      responses := responses + [r];
      i := i + 1;
    }
    assert views[..|args|] == views;
  }

  /**
    The continuation of every callback, in argument order: apply the effect
    of its answer, writing the stack or reporting the failure.
  */
  method SettleAll(logError: Slot, excludeCoreFrames: bool, args: seq<Value>,
                   responses: seq<Option<Resolution>>, ghost effects: seq<Effect>, out: CallLog)
    requires |responses| == |args| && |effects| == |args|
    requires forall k :: 0 <= k < |args| ==>
               effects[k] == Settle(excludeCoreFrames, MessageOf(ViewOf(args[k])), responses[k])
    requires forall k :: 0 <= k < |args| && !args[k].ErrorValue? ==> responses[k] == None
    modifies ObjectsOf(args), out
    ensures out.calls == old(out.calls) + Reports(logError, effects)
    ensures forall o :: o in ObjectsOf(args) ==>
              o.message == old(o.message) && o.stack == FinalStack(args, effects, o, old(o.stack))
  {
    var i := 0;
    while i < |args|
      invariant 0 <= i <= |args|
      invariant out.calls == old(out.calls) + Reports(logError, effects[..i])
      invariant forall o :: o in ObjectsOf(args) ==>
                  o.message == old(o.message) && o.stack == FinalStack(args[..i], effects[..i], o, old(o.stack))
    {
      SettleArgument(logError, excludeCoreFrames, args[i], responses[i], out);
      ReportsStep(logError, effects, i);
      forall o | o in ObjectsOf(args)
        ensures FinalStack(args[..i + 1], effects[..i + 1], o, old(o.stack))
             == if args[i] == ErrorValue(o) && effects[i].SetStack? then Some(effects[i].stack)
                else FinalStack(args[..i], effects[..i], o, old(o.stack))
      {
        FinalStackStep(args, effects, o, old(o.stack), i);
      }
      i := i + 1;
    }
    assert args[..|args|] == args;
    assert effects[..|args|] == effects;
  }

  /** The continuation of one callback: the effect of its answer on the argument and on the fallback logger. */
  method SettleArgument(logError: Slot, excludeCoreFrames: bool, arg: Value, response: Option<Resolution>, out: CallLog)
    requires !arg.ErrorValue? ==> response == None
    modifies (if arg.ErrorValue? then {arg.err} else {}), out
    ensures var e := Settle(excludeCoreFrames, MessageOf(old(ViewOf(arg))), response);
            && out.calls == old(out.calls) + (if e.Report? then [Call(logError, [Str(FailurePrefix), e.thrown])] else [])
            && (arg.ErrorValue? ==>
                  && arg.err.message == old(arg.err.message)
                  && arg.err.stack == if e.SetStack? then Some(e.stack) else old(arg.err.stack))
  {
    if arg.ErrorValue? {
      var e := Settle(excludeCoreFrames, arg.err.message, response);
      match e {
        case SetStack(s) => arg.err.stack := Some(s);
        case Report(t) => out.Record(Call(logError, [Str(FailurePrefix), t]));
        case Keep =>
      }
    }
  }
}
