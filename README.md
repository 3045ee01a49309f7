# react-native-console-symbolicator, modelled in Dafny

In development builds of a React Native app, the library replaces six console
functions: `error`, `warn`, `log`, `info`, `debug` and `assert`. Each
replacement looks at its arguments. Every `Error` with a non-empty `stack` has
that stack symbolicated by the React Native dev server. The stack text is then
rewritten so that it names positions in the original sources. All arguments
then go to the original console function, in their order.

The model consists of:

- `Text` (`text.dfy`): the string built-ins the code uses. These are
  `includes`, `join` and a number inside a template literal. Each is proved
  against a partner: an occurrence index, a `Split` that undoes `Join`, and a
  parser that reads numerals back.
- `StackFormat` (`stack_format.dfy`): the pure `map` / `filter` / `join` chain
  that turns resolved frames into the new stack, and its lemmas.
- `Symbolication` (`symbolication.dfy`): the wrapper built by
  `symbolicatedConsole`.
  - An `ErrorObject` class has a mutable `stack` field.
  - The service is a `Symbolicator` oracle that records every request.
  - A `CallLog` records the calls the wrapper makes to the functions it closed over.
  - `SymbolicatedCall` walks the arguments. It is proved against a
    specification: `QualifyingStacks`, `ResponseAt`, `Settle`, `Reports`,
    `FinalStack`.
- `Installer` (`installer.dfy`): a `Console` class with six mutable slot
  fields. `Install` models `installConsoleSymbolicator`, and `Invoke` models a
  call to one console channel.
- `Scenarios` (`scenarios.dfy`): three whole runs (install, then one console
  call), each proved from the contracts alone.

A console function is a `Slot` value. `Native(id)` is a function that existed
before the install. `Wrapper(original, logError, excludeCoreFrames)` is the
closure that `symbolicatedConsole` returns.

The `args.map(async ...)` of the wrapper is modelled as two passes in argument
order:

1. `RequestAll` runs the synchronous start of every callback. It classifies
   the argument, reads its stack and sends the request.
2. `SettleAll` runs every continuation after `await`. It writes the stack or
   reports the failure.

Every request therefore sees the stack the argument had when the channel was
called, as in the source, even when one `Error` object is passed twice.

The expected shape of a rewritten stack is one line per surviving frame, plus
one line for a non-empty message. The code does not always produce that shape:

- `StackFormat.RewrittenStackLines` proves the rule when at least one frame
  line survives and no message or name contains a newline.
- `StackFormat.AllLinesFiltered` proves what the code does when every line is
  filtered out. The stack becomes `message + "\n"`, or `""` when the message
  is empty.

## Model

| member | source | states |
|---|---|---|
| `Text.Contains` | src/index.tsx:115 | computes `line.includes(sub)`: the line starts with `sub`, or its remainder after the first character contains it |
| `Text.ContainsIffOccurs` | src/index.tsx:115 | the recursive `includes` holds exactly when the marker occurs at some index of the line |
| `Text.Join` | src/index.tsx:117 | computes `lines.join(sep)`: the lines with `sep` between each pair, `""` for no lines |
| `Text.SplitJoin` | src/index.tsx:117 | joining lines free of `\n` with `"\n"`, then splitting on `\n`, gives back exactly the lines |
| `Text.IntToDecimal` | src/index.tsx:107 | computes `${n}` for an integer: its decimal digits, with a leading `-` when negative |
| `Text.IntRoundTrip` | src/index.tsx:107 | the decimal text of a line or column number reads back as that number; it is non-empty, ends in a digit, and holds only digits and `-` |
| `StackFormat.HasFile` | src/index.tsx:106 | holds when `frame.file != null && frame.file.length > 0` |
| `StackFormat.OrZero` | src/index.tsx:107 | computes `n || 0` for a line or column number: 0 when it is null or undefined, else the number |
| `StackFormat.Position` | src/index.tsx:105-108 | computes `fileInfo`: `file:line:column` when the frame has a file, else `unknown` |
| `StackFormat.FormatFrame` | src/index.tsx:105-109 | every display line starts with `"    at "` and ends with `)` |
| `StackFormat.FormatFrames` | src/index.tsx:96-111 | the map keeps one line per frame, in order, and line k is frame k's display line |
| `StackFormat.FormatFrameUnknownIff` | src/index.tsx:105-109 | a line ends in `(unknown)` if and only if the frame's file is null, undefined or empty |
| `StackFormat.FormatFrameIsOneLine` | src/index.tsx:105-109 | a frame whose name and file have no newline renders as a single line |
| `StackFormat.AppFrameLine` | src/index.tsx:105-109 | `foo` at App.tsx line 10, column 4 renders as `"    at foo (App.tsx:10:4)"` |
| `StackFormat.KeepLine` | src/index.tsx:113-115 | the filter callback: a line is kept when exclusion is off or the line does not contain `node_modules/react-native` |
| `StackFormat.FilterLines` | src/index.tsx:112-116 | computes `lines.filter(KeepLine)`: the kept lines, in their order |
| `StackFormat.CoreFileLineDropped` | src/index.tsx:112-116 | with exclusion on, the line of a frame whose file contains `node_modules/react-native` is dropped |
| `StackFormat.FilterKeepsAllWhenOff` | src/index.tsx:112-116 | with exclusion off, the filter returns every line unchanged, so the count is unchanged |
| `StackFormat.FilterDropsCoreLines` | src/index.tsx:112-116 | with exclusion on, no surviving line contains `node_modules/react-native` |
| `StackFormat.FilterMembership` | src/index.tsx:112-116 | a line survives if and only if it was an input line and the filter callback keeps it |
| `StackFormat.FilterKeepsOrder` | src/index.tsx:112-116 | the surviving lines are a subsequence of the input, so their order is kept |
| `StackFormat.FilterShrinks` | src/index.tsx:112-116 | filtering never adds lines and never adds a newline to a line |
| `StackFormat.FilterAppend` | src/index.tsx:112-116 | filtering a concatenation is the concatenation of the filtered parts |
| `StackFormat.FilterCount` | src/index.tsx:112-116 | each line occurs in the output exactly as often as in the input when the callback keeps it, and never when it does not, repeated lines included |
| `StackFormat.NewStack` | src/index.tsx:119 | computes the new `stack`: `message + "\n" + body` for a non-empty message, else the body |
| `StackFormat.RewrittenStack` | src/index.tsx:96-119 | computes the whole rewrite: frames formatted, filtered, joined with `"\n"`, then put under the message |
| `StackFormat.NewStackLines` | src/index.tsx:117-119 | read back line by line, the new stack is the message line (only when the message is non-empty) followed by exactly the joined lines |
| `StackFormat.RewrittenStackLines` | src/index.tsx:96-119 | the rewritten stack is the message line (if any) plus the surviving frame lines; with exclusion off it has one line per frame, plus one for a non-empty message |
| `StackFormat.AllLinesFiltered` | src/index.tsx:112-119 | when every line is filtered out, the stack becomes `message + "\n"`, or `""` for an empty message |
| `StackFormat.BoomExample` | src/index.tsx:96-119 | message `boom` with one App.tsx frame gives the stack `"boom\n    at foo (App.tsx:10:4)"` |
| `StackFormat.ExcludeExample` | src/index.tsx:112-119 | with exclusion on, a core frame and an app frame leave only the app frame's line |
| `Symbolication.Symbolicator.Resolve` | src/index.tsx:87-90 | every request is recorded, and its answer is the oracle's answer for that request number and that stack |
| `Symbolication.ViewOf` | src/index.tsx:80 | reads an argument as the wrapper sees it: an `Error`'s current message and stack, or inert for any other value |
| `Symbolication.Qualifies` | src/index.tsx:80-82 | holds for `arg instanceof Error && arg.stack` truthy: an error whose stack is defined and non-empty |
| `Symbolication.MessageOf` | src/index.tsx:119 | the message the rewrite puts in front of the frame lines |
| `Symbolication.QualifyingStacks` | src/index.tsx:79-90 | computes the stacks sent to the service, one per qualifying argument, in argument order |
| `Symbolication.ResponseAt` | src/index.tsx:87-90 | computes argument k's answer: none unless it qualifies, else the oracle's answer to k's own request number and stack |
| `Symbolication.Settle` | src/index.tsx:92-122 | computes the continuation's effect: no answer or no frames keep the stack, an exception is reported, frames set `RewrittenStack` |
| `Symbolication.Effects` | src/index.tsx:79-124 | computes the effect of every argument, in argument order |
| `Symbolication.Reports` | src/index.tsx:120-122 | computes the fallback logger calls: one `logError('Error during symbolication:', thrown)` per reported effect, in argument order |
| `Symbolication.FinalStack` | src/index.tsx:119 | computes the stack an error ends with: that of the last argument that rewrites it, or the stack it had |
| `Symbolication.WrapperCallDone` | src/index.tsx:78-130 | the whole effect of one wrapper call: requests, then reports, then one call of the original with the same arguments, and each error's message kept and stack set to `FinalStack` |
| `Symbolication.NonQualifyingPassesThrough` | src/index.tsx:80-82 | an argument that is not an `Error` with a non-empty stack gets no request and no effect |
| `Symbolication.NothingQualifiesNoRequests` | src/index.tsx:80-82 | when no argument qualifies, the service is never consulted |
| `Symbolication.RequestsOfPrefix` | src/index.tsx:79-90 | the requests made for the first n arguments are a prefix of all the requests |
| `Symbolication.RequestOfArgument` | src/index.tsx:87-90 | the request numbered for argument k carries exactly k's own original stack |
| `Symbolication.RequestNumbersIncrease` | src/index.tsx:79-90 | two qualifying arguments never share a request number |
| `Symbolication.FailureIsContained` | src/index.tsx:85-124 | whatever the service answers to argument i (an exception included), every other argument's effect is the same |
| `Symbolication.NoFailureNoReport` | src/index.tsx:120-122 | without a failing argument, the fallback logger is never called |
| `Symbolication.OneFailureOneReport` | src/index.tsx:120-122 | one failing argument gives exactly one call `logError('Error during symbolication:', thrown)` |
| `Symbolication.ReportsStep` | src/index.tsx:120-122 | helper for `SettleAll`'s loop: handling one more argument adds exactly that argument's report, if it has one |
| `Symbolication.FinalStackStep` | src/index.tsx:119 | helper for `SettleAll`'s loop: handling one more argument applies exactly that argument's rewrite, if it has one |
| `Symbolication.FinalStackUntouched` | src/index.tsx:92-94 | an error that no answer rewrites keeps exactly the stack it had |
| `Symbolication.FinalStackOfSoleArgument` | src/index.tsx:119-124 | an error passed once ends with the stack its own answer gives it, or with its old stack |
| `Symbolication.ArgumentOutcome` | src/index.tsx:80-124 | per-argument state machine: the stack is rewritten from the message and frames only for a non-empty frame list; not qualifying, an exception or no frames keep it exactly |
| `Symbolication.SymbolicatedCall` | src/index.tsx:78-130 | requests go out in argument order with the original stacks. Each failure is reported once through `logError`. The original function is then called once with the same k arguments in the same order. Errors change only in `stack` |
| `Symbolication.RequestAll` | src/index.tsx:79-90 | the synchronous pass sends exactly the qualifying stacks, in order, and gives each argument its own answer |
| `Symbolication.SettleAll` | src/index.tsx:92-124 | the continuations write the specified stacks and make the specified reports, in argument order |
| `Symbolication.SettleArgument` | src/index.tsx:92-124 | one continuation: no frames keeps the stack, an exception adds one report, frames replace the stack; `message` never changes |
| `Installer.Installed` | src/index.tsx:38-64 | computes the slots after an install: unchanged when `__DEV__` is false, else each slot wrapped around its previous value with the previous `error` as fallback |
| `Installer.InstallOffIsNoOp` | src/index.tsx:38-40 | with `__DEV__` false, no slot changes |
| `Installer.InstallWrapsEachSlot` | src/index.tsx:42-64 | with `__DEV__` true, each slot wraps its own previous value, and every wrapper's fallback logger is the previous `error` |
| `Installer.InstallKeepsSlotsApart` | src/index.tsx:51-64 | corollary of `InstallWrapsEachSlot`: distinct previous functions give distinct wrappers |
| `Installer.ReinstallNests` | src/index.tsx:42-64 | a second install wraps the first wrappers: its `log` wraps the first `log` wrapper and reports through the first `error` wrapper |
| `Installer.Console.Install` | src/index.tsx:22-65 | the six slots become `Installed(devMode, exclude, previous slots)` |
| `Installer.Console.Invoke` | src/index.tsx:57-64 | a native slot is called directly with the arguments untouched and no request; a wrapper slot runs `SymbolicatedCall` with its captured original and fallback |
| `Scenarios.BoomScenario` | src/index.tsx:57-130 | after install, `console.error(e)` for `e = new Error("boom")` with one resolved App.tsx frame requests `e`'s bundle stack once and makes the single call native `error(e)`. `e`'s stack is then `"boom\n    at foo (App.tsx:10:4)"` |
| `Scenarios.DevOffScenario` | src/index.tsx:38-40 | with `__DEV__` false, `console.error(e)` makes the single call native `error(e)`, with no request and `e`'s stack unchanged |
| `Scenarios.FailureEffects` | src/index.tsx:85-124 | when the first of two errors fails and the second resolves, the effects are one report followed by one rewrite |
| `Scenarios.FailureOutcome` | src/index.tsx:85-124 | in that run, the failing error keeps its stack, the other gets the App.tsx line, and there is exactly one report |
| `Scenarios.FailureScenario` | src/index.tsx:57-130 | in `console.log(bad, good)` where `bad`'s request throws, the calls are exactly native `error('Error during symbolication:', thrown)` and then native `log(bad, good)`. `bad` keeps its stack and `good` is rewritten |

## Left out

- Concurrency of `Promise.all` (src/index.tsx:79, 127): the callbacks are run sequentially, in two passes, in argument order.
  - Reports to the fallback logger are therefore made in argument order.
  - When one error object is passed twice, the later argument's rewrite wins.
  - In the source, both orders depend on when the answers arrive.
- `parseErrorStack` and `symbolicateStackTrace` (src/index.tsx:1-2, 87-90) are foreign calls to the dev server. Together they are one oracle, `Symbolicator.respond`, which may depend on the request number and the stack text.
  - A parse exception and a rejected request are both `Threw`.
  - A parse exception is raised synchronously in the source, so it is reported before later arguments' requests are sent. Here all reports come after all requests.
  - A null or undefined answer throws at the destructuring on src/index.tsx:87, so it is a `Threw`.
  - A null or undefined `stack` in the answer and an empty frame list are both `Frames([])` (src/index.tsx:92).
- The `__DEV__` global is the `devMode` input of `Install`.
- The option record and its field both default (src/index.tsx:23, 37). Calling `installConsoleSymbolicator()` with no options is `Install(devMode, false)`.
- Console output is the `CallLog` record. A call to a captured function that is itself a wrapper (after a second install) is recorded as one call to that `Wrapper` slot. It is not expanded into a nested run of the pipeline.
- The wrapper returns a promise that callers may ignore (src/index.tsx:78). The model's call completes before it returns.
- Argument values are `Str` (strings), `Opaque` tokens (any other value; `console.assert`'s condition included) and `ErrorValue` (an `Error` by reference).
  - An object with a `stack` property that is not an `Error` is `Opaque`.
  - A non-string `message` is not modelled.
- Line and column numbers are integers. JavaScript turns NaN into 0 through `|| 0`, and it renders non-integers and values of 1e21 or more in other forms. None of this is modelled.
- Installing twice is reproduced as the source does it: the new wrappers wrap the old ones (`Installer.ReinstallNests`). No guard is added.
- example/src/App.tsx and example/src/components/Button.tsx are demo UI. They are not part of this model.
