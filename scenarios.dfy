/**
  End-to-end runs of the model: a console is set up, the symbolicator is
  installed (or not), and one channel is called. Each method states what the
  caller observes afterwards and derives it from the contracts alone.
*/
module Scenarios {
  import opened Wrappers
  import opened StackFormat
  import opened Symbolication
  import opened Installer

  const NativeConsole := Bindings(Native(0), Native(1), Native(2), Native(3), Native(4), Native(5))

  const AppFrame := Frame("foo", Some("App.tsx"), Some(10), Some(4))

  const BundleStack := "Error: boom\n    at anonymous (index.bundle:1:2)"

  /**
    `console.error(new Error("boom"))` after installing in development mode,
    with the service resolving one App.tsx frame: the native `error` receives
    the one error, whose stack now names the original source position.
  */
  method BoomScenario() returns (e: ErrorObject, stack: Option<string>, forwarded: seq<Call>, requests: seq<string>)
    ensures stack == Some("boom\n    at foo (App.tsx:10:4)")
    ensures forwarded == [Call(Native(0), [ErrorValue(e)])]
    ensures requests == [BundleStack]
  {
    e := new ErrorObject("boom", Some(BundleStack));
    var console := new Console(NativeConsole);
    console.Install(true, false);
    var sym := new Symbolicator((n: nat, s: string) => Frames([AppFrame]));
    var out := new CallLog();
    var args := [ErrorValue(e)];
    assert args[0].err == e;
    assert ObjectsOf(args) == {e};
    ghost var views := Snapshot(args);
    assert views[0] == ErrorView("boom", Some(BundleStack));
    assert views[..0] == [];
    assert Get(console.Current(), Error) == Wrapper(Native(0), Native(0), false);
    console.Invoke(Error, args, sym, out);
    ArgumentOutcome(false, sym.respond, 0, args, views, e, 0);
    BoomExample();
    assert QualifyingStacks(views) == [BundleStack] by {
      assert views[..|views| - 1] == [];
    }
    ghost var effects := Effects(false, sym.respond, 0, views);
    assert Reports(Native(0), effects) == [] by {
      NoFailureNoReport(Native(0), effects);
    }
    stack, forwarded, requests := e.stack, out.calls, sym.requests;
  }

  /**
    With the development flag clear, `console.error(err)` reaches the native
    `error` directly: no request is made and the stack stays as it was.
  */
  method DevOffScenario() returns (e: ErrorObject, stack: Option<string>, forwarded: seq<Call>, requests: seq<string>)
    ensures stack == Some(BundleStack)
    ensures forwarded == [Call(Native(0), [ErrorValue(e)])]
    ensures requests == []
  {
    e := new ErrorObject("boom", Some(BundleStack));
    var console := new Console(NativeConsole);
    console.Install(false, false);
    var sym := new Symbolicator((n: nat, s: string) => Frames([AppFrame]));
    var out := new CallLog();
    var args := [ErrorValue(e)];
    assert args[0].err == e;
    assert ObjectsOf(args) == {e};
    console.Invoke(Error, args, sym, out);
    stack, forwarded, requests := e.stack, out.calls, sym.requests;
  }

  const OtherStack := "Error\n    at anonymous (index.bundle:3:4)"

  /** The effects when the first of two qualifying errors fails and the second resolves to the App.tsx frame. */
  lemma FailureEffects(respond: (nat, string) -> Resolution, views: seq<ArgView>)
    requires forall n: nat, s: string :: respond(n, s) == if n == 0 then Threw(Opaque(7)) else Frames([AppFrame])
    requires views == [ErrorView("boom", Some(BundleStack)), ErrorView("", Some(OtherStack))]
    ensures Effects(false, respond, 0, views) == [Report(Opaque(7)), SetStack("    at foo (App.tsx:10:4)")]
  {
    assert views[..0] == [];
    assert QualifyingStacks(views[..1]) == [BundleStack] by {
      assert views[..1][..0] == [];
    }
    AppFrameLine();
    FilterKeepsAllWhenOff([FormatFrame(AppFrame)]);
    assert RewrittenStack(false, "", [AppFrame]) == "    at foo (App.tsx:10:4)";
  }

  /**
    What the two-error run leaves behind: the failing error keeps its stack,
    the sibling gets the App.tsx line, and the previous `error` gets one report.
  */
  lemma FailureOutcome(respond: (nat, string) -> Resolution, views: seq<ArgView>, bad: ErrorObject, good: ErrorObject)
    requires forall n: nat, s: string :: respond(n, s) == if n == 0 then Threw(Opaque(7)) else Frames([AppFrame])
    requires views == [ErrorView("boom", Some(BundleStack)), ErrorView("", Some(OtherStack))]
    requires bad != good
    ensures var args := [ErrorValue(bad), ErrorValue(good)];
            var effects := Effects(false, respond, 0, views);
            && FinalStack(args, effects, bad, Some(BundleStack)) == Some(BundleStack)
            && FinalStack(args, effects, good, Some(OtherStack)) == Some("    at foo (App.tsx:10:4)")
            && Reports(Native(0), effects) == [Call(Native(0), [Str(FailurePrefix), Opaque(7)])]
  {
    var args := [ErrorValue(bad), ErrorValue(good)];
    FailureEffects(respond, views);
    var effects := Effects(false, respond, 0, views);
    FinalStackOfSoleArgument(args, effects, bad, Some(BundleStack), 0);
    FinalStackOfSoleArgument(args, effects, good, Some(OtherStack), 1);
    OneFailureOneReport(Native(0), effects, 0);
  }

  /**
    `console.log(bad, good)` where the first request throws: the previous
    `error` function (not `log`) gets one report, the failing error keeps its
    stack, the sibling is rewritten, and the native `log` gets both, in order.
  */
  method FailureScenario() returns (bad: ErrorObject, good: ErrorObject,
                                    badStack: Option<string>, goodStack: Option<string>, forwarded: seq<Call>)
    ensures badStack == Some(BundleStack)
    ensures goodStack == Some("    at foo (App.tsx:10:4)")
    ensures forwarded == [Call(Native(0), [Str(FailurePrefix), Opaque(7)]),
                          Call(Native(2), [ErrorValue(bad), ErrorValue(good)])]
  {
    bad := new ErrorObject("boom", Some(BundleStack));
    good := new ErrorObject("", Some(OtherStack));
    var console := new Console(NativeConsole);
    console.Install(true, false);
    var sym := new Symbolicator((n: nat, s: string) => if n == 0 then Threw(Opaque(7)) else Frames([AppFrame]));
    var out := new CallLog();
    var args := [ErrorValue(bad), ErrorValue(good)];
    assert args[0].err == bad && args[1].err == good;
    assert ObjectsOf(args) == {bad, good};
    ghost var views := Snapshot(args);
    assert views == [ErrorView("boom", Some(BundleStack)), ErrorView("", Some(OtherStack))] by {
      assert views[0] == ViewOf(args[0]) && views[1] == ViewOf(args[1]);
    }
    assert Get(console.Current(), Log) == Wrapper(Native(2), Native(0), false);
    console.Invoke(Log, args, sym, out);
    FailureOutcome(sym.respond, views, bad, good);
    badStack, goodStack, forwarded := bad.stack, good.stack, out.calls;
  }
}
