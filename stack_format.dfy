/**
  The pure part of the per-argument rewrite: every resolved frame is rendered
  as one display line, lines from the React Native core may be dropped, the
  surviving lines are joined with newlines, and the error message is put in
  front of the result. This is the `map` / `filter` / `join` chain and the
  `arg.stack = ...` rule of src/index.tsx.
*/
module StackFormat {
  import opened Wrappers
  import opened Text

  /** A frame as the symbolication service resolves it. */
  datatype Frame = Frame(methodName: string, file: Option<string>, lineNumber: Option<int>, column: Option<int>)

  /** The path segment that identifies frames of the React Native core. */
  const CoreFramesMarker := "node_modules/react-native"

  /** Every display line starts with this indentation and keyword. */
  const FramePrefix := "    at "

  /** Shown in place of a position when the frame has no file. */
  const UnknownPosition := "unknown"

  /** `frame.file != null && frame.file.length > 0` */
  predicate HasFile(f: Frame)
  {
    f.file.Some? && |f.file.value| > 0
  }

  /** `n || 0`: an absent number (or a zero) renders as 0. */
  function OrZero(n: Option<int>): int
  {
    match n
    case None => 0
    case Some(v) => v
  }

  /** The text between the parentheses of a display line. */
  function Position(f: Frame): string
  {
    if HasFile(f) then
      f.file.value + ":" + IntToDecimal(OrZero(f.lineNumber)) + ":" + IntToDecimal(OrZero(f.column))
    else UnknownPosition
  }

  /** The display line of one frame. */
  function FormatFrame(f: Frame): (line: string)
    ensures |line| > |FramePrefix| && line[..|FramePrefix|] == FramePrefix && line[|line| - 1] == ')'
  {
    FramePrefix + f.methodName + " (" + Position(f) + ")"
  }

  /** `frames.map(format)` */
  function FormatFrames(frames: seq<Frame>): (lines: seq<string>)
    ensures |lines| == |frames|
    ensures forall k :: 0 <= k < |frames| ==> lines[k] == FormatFrame(frames[k])
  {
    if frames == [] then [] else [FormatFrame(frames[0])] + FormatFrames(frames[1..])
  }

  /** The filter callback: `!excludeReactNativeCoreFrames || !line.includes(marker)`. */
  predicate KeepLine(excludeCoreFrames: bool, line: string)
  {
    !excludeCoreFrames || !Contains(line, CoreFramesMarker)
  }

  /** `lines.filter(line => KeepLine(excludeCoreFrames, line))` */
  function FilterLines(excludeCoreFrames: bool, lines: seq<string>): seq<string>
  {
    if lines == [] then []
    else if KeepLine(excludeCoreFrames, lines[0]) then [lines[0]] + FilterLines(excludeCoreFrames, lines[1..])
    else FilterLines(excludeCoreFrames, lines[1..])
  }

  /** The stack that replaces the old one: the message line (when the message is non-empty) over the body. */
  function NewStack(message: string, body: string): string
  {
    if message != "" then message + "\n" + body else body
  }

  /** The whole rewrite for a non-empty list of resolved frames. */
  function RewrittenStack(excludeCoreFrames: bool, message: string, frames: seq<Frame>): string
  {
    NewStack(message, Join(FilterLines(excludeCoreFrames, FormatFrames(frames)), "\n"))
  }

  // ---------------------------------------------------------------------
  // Frame lines
  // ---------------------------------------------------------------------

  ghost predicate EndsWith(s: string, suffix: string)
  {
    |suffix| <= |s| && s[|s| - |suffix|..] == suffix
  }

  /** A line shows "(unknown)" exactly when the frame has no (non-empty) file. */
  lemma FormatFrameUnknownIff(f: Frame)
    ensures EndsWith(FormatFrame(f), "(unknown)") <==> !HasFile(f)
  {
    var line := FormatFrame(f);
    if HasFile(f) {
      var col := IntToDecimal(OrZero(f.column));
      IntRoundTrip(OrZero(f.column));
      assert line == FramePrefix + f.methodName + " (" + f.file.value + ":"
        + IntToDecimal(OrZero(f.lineNumber)) + ":" + col + ")";
      assert line[|line| - 2] == col[|col| - 1];
      assert "(unknown)"[7] == 'n';
    } else {
      assert line == (FramePrefix + f.methodName + " ") + "(unknown)";
    }
  }

  /** Every character of a rendered number is a digit or a minus sign, so never a newline. */
  lemma NumberIsOneLine(n: int)
    ensures '\n' !in IntToDecimal(n)
  {
    IntRoundTrip(n);
  }

  /** A frame whose name and file have no newline renders as a single line. */
  lemma FormatFrameIsOneLine(f: Frame)
    requires '\n' !in f.methodName
    requires f.file.Some? ==> '\n' !in f.file.value
    ensures '\n' !in FormatFrame(f)
  {
    NumberIsOneLine(OrZero(f.lineNumber));
    NumberIsOneLine(OrZero(f.column));
  }

  /** A frame located in the React Native core yields a line the exclusion drops. */
  lemma CoreFileLineDropped(f: Frame)
    requires HasFile(f) && Contains(f.file.value, CoreFramesMarker)
    ensures !KeepLine(true, FormatFrame(f))
  {
    var head := FramePrefix + f.methodName + " (";
    var rest := ":" + IntToDecimal(OrZero(f.lineNumber)) + ":" + IntToDecimal(OrZero(f.column)) + ")";
    assert FormatFrame(f) == head + f.file.value + rest;
    ContainsInContext(head, f.file.value, rest, CoreFramesMarker);
  }

  // ---------------------------------------------------------------------
  // Filtering
  // ---------------------------------------------------------------------

  /** `a` is `b` with some elements left out, the rest in their order. */
  ghost predicate Subsequence(a: seq<string>, b: seq<string>)
    decreases |b|
  {
    if a == [] then true
    else if b == [] then false
    else (a[0] == b[0] && Subsequence(a[1..], b[1..])) || Subsequence(a, b[1..])
  }

  /** With the option off, every line survives. */
  lemma {:induction false} FilterKeepsAllWhenOff(lines: seq<string>)
    ensures FilterLines(false, lines) == lines
  {
    if lines != [] {
      FilterKeepsAllWhenOff(lines[1..]);
    }
  }

  /** A line survives exactly when it was there and the filter keeps it. */
  lemma {:induction false} FilterMembership(excludeCoreFrames: bool, lines: seq<string>, line: string)
    ensures line in FilterLines(excludeCoreFrames, lines) <==> line in lines && KeepLine(excludeCoreFrames, line)
  {
    if lines != [] {
      FilterMembership(excludeCoreFrames, lines[1..], line);
      assert lines == [lines[0]] + lines[1..];
    }
  }

  /** With the option on, no surviving line mentions the React Native core. */
  lemma FilterDropsCoreLines(lines: seq<string>)
    ensures forall k :: 0 <= k < |FilterLines(true, lines)| ==> !Contains(FilterLines(true, lines)[k], CoreFramesMarker)
  {
    forall k | 0 <= k < |FilterLines(true, lines)|
      ensures !Contains(FilterLines(true, lines)[k], CoreFramesMarker)
    {
      FilterMembership(true, lines, FilterLines(true, lines)[k]);
    }
  }

  /** Filtering never reorders: the result is a subsequence of its input. */
  lemma {:induction false} FilterKeepsOrder(excludeCoreFrames: bool, lines: seq<string>)
    ensures Subsequence(FilterLines(excludeCoreFrames, lines), lines)
  {
    if lines != [] {
      FilterKeepsOrder(excludeCoreFrames, lines[1..]);
      var rest := FilterLines(excludeCoreFrames, lines[1..]);
      if !KeepLine(excludeCoreFrames, lines[0]) && rest != [] {
        assert Subsequence(rest, lines[1..]);
      }
    }
  }

  /** Filtering never invents lines: no more lines than before, none free of the separator gains one. */
  lemma {:induction false} FilterShrinks(excludeCoreFrames: bool, lines: seq<string>)
    ensures |FilterLines(excludeCoreFrames, lines)| <= |lines|
    ensures FreeOf(lines, '\n') ==> FreeOf(FilterLines(excludeCoreFrames, lines), '\n')
  {
    if lines != [] {
      FilterShrinks(excludeCoreFrames, lines[1..]);
      assert FreeOf(lines, '\n') ==> FreeOf(lines[1..], '\n') by {
        if FreeOf(lines, '\n') {
          forall k | 0 <= k < |lines[1..]| ensures '\n' !in lines[1..][k] {
            assert lines[1..][k] == lines[k + 1];
          }
        }
      }
    }
  }

  /** The filter acts line by line: filtering a concatenation filters each part. */
  lemma {:induction false} FilterAppend(excludeCoreFrames: bool, a: seq<string>, b: seq<string>)
    ensures FilterLines(excludeCoreFrames, a + b) == FilterLines(excludeCoreFrames, a) + FilterLines(excludeCoreFrames, b)
  {
    if a == [] {
      assert a + b == b;
    } else {
      assert (a + b)[0] == a[0] && (a + b)[1..] == a[1..] + b;
      FilterAppend(excludeCoreFrames, a[1..], b);
    }
  }

  /** Every copy of a kept line survives and every copy of a dropped line goes, repeated lines included. */
  lemma {:induction false} FilterCount(excludeCoreFrames: bool, lines: seq<string>, line: string)
    ensures multiset(FilterLines(excludeCoreFrames, lines))[line]
         == if KeepLine(excludeCoreFrames, line) then multiset(lines)[line] else 0
  {
    if lines != [] {
      FilterCount(excludeCoreFrames, lines[1..], line);
      assert lines == [lines[0]] + lines[1..];
    }
  }

  // ---------------------------------------------------------------------
  // The rewritten stack
  // ---------------------------------------------------------------------

  /** Frames free of newlines render to newline-free lines. */
  lemma FormatFramesAreLines(frames: seq<Frame>)
    requires forall k :: 0 <= k < |frames| ==> '\n' !in frames[k].methodName
    requires forall k :: 0 <= k < |frames| ==> frames[k].file.Some? ==> '\n' !in frames[k].file.value
    ensures FreeOf(FormatFrames(frames), '\n')
  {
    forall k | 0 <= k < |frames| ensures '\n' !in FormatFrames(frames)[k] {
      FormatFrameIsOneLine(frames[k]);
    }
  }

  /**
    Read back line by line, the new stack is the message line (when the
    message is non-empty) followed by exactly the surviving frame lines.
  */
  lemma NewStackLines(message: string, lines: seq<string>)
    requires '\n' !in message
    requires |lines| >= 1 && FreeOf(lines, '\n')
    ensures Split(NewStack(message, Join(lines, "\n")), '\n') == (if message == "" then [] else [message]) + lines
  {
    SplitJoin(lines, '\n');
    if message != "" {
      SplitAtFirst(message, '\n', Join(lines, "\n"));
    }
  }

  /**
    The line count of the rewritten stack: the surviving frame lines plus one
    line for a non-empty message; with the option off, one line per frame.
  */
  lemma RewrittenStackLines(excludeCoreFrames: bool, message: string, frames: seq<Frame>)
    requires '\n' !in message
    requires forall k :: 0 <= k < |frames| ==> '\n' !in frames[k].methodName
    requires forall k :: 0 <= k < |frames| ==> frames[k].file.Some? ==> '\n' !in frames[k].file.value
    requires |FilterLines(excludeCoreFrames, FormatFrames(frames))| >= 1
    ensures Split(RewrittenStack(excludeCoreFrames, message, frames), '\n')
         == (if message == "" then [] else [message]) + FilterLines(excludeCoreFrames, FormatFrames(frames))
    ensures !excludeCoreFrames ==>
      |Split(RewrittenStack(excludeCoreFrames, message, frames), '\n')| == |frames| + (if message == "" then 0 else 1)
  {
    FormatFramesAreLines(frames);
    FilterShrinks(excludeCoreFrames, FormatFrames(frames));
    NewStackLines(message, FilterLines(excludeCoreFrames, FormatFrames(frames)));
    FilterKeepsAllWhenOff(FormatFrames(frames));
  }

  /**
    When every line is filtered out the body is empty: the stack is the
    message followed by a lone newline, or the empty string.
  */
  lemma AllLinesFiltered(excludeCoreFrames: bool, message: string, frames: seq<Frame>)
    requires FilterLines(excludeCoreFrames, FormatFrames(frames)) == []
    ensures RewrittenStack(excludeCoreFrames, message, frames) == (if message == "" then "" else message + "\n")
  {
  }

  // ---------------------------------------------------------------------
  // Worked examples
  // ---------------------------------------------------------------------

  lemma TenAndFour()
    ensures IntToDecimal(10) == "10" && IntToDecimal(4) == "4"
  {
    assert NatToDecimal(1) == "1" && DigitChar(0) == '0';
    assert NatToDecimal(10) == NatToDecimal(1) + [DigitChar(0)];
  }

  /** The display line of `foo` at line 10, column 4 of App.tsx. */
  lemma AppFrameLine()
    ensures FormatFrame(Frame("foo", Some("App.tsx"), Some(10), Some(4))) == "    at foo (App.tsx:10:4)"
  {
    var f := Frame("foo", Some("App.tsx"), Some(10), Some(4));
    TenAndFour();
    assert HasFile(f);
    assert Position(f) == "App.tsx" + ":" + "10" + ":" + "4";
  }

  /** `new Error("boom")` resolved to one frame of App.tsx, nothing excluded. */
  lemma BoomExample()
    ensures RewrittenStack(false, "boom", [Frame("foo", Some("App.tsx"), Some(10), Some(4))])
         == "boom\n    at foo (App.tsx:10:4)"
  {
    var f := Frame("foo", Some("App.tsx"), Some(10), Some(4));
    AppFrameLine();
    FilterKeepsAllWhenOff(FormatFrames([f]));
    assert FormatFrames([f]) == ["    at foo (App.tsx:10:4)"];
    assert Join(["    at foo (App.tsx:10:4)"], "\n") == "    at foo (App.tsx:10:4)";
  }

  /** With the option on, of a core frame and an app frame only the app frame's line remains. */
  lemma ExcludeExample()
    ensures RewrittenStack(true, "", [Frame("dispatch", Some("node_modules/react-native/Libraries/x.js"), Some(1), Some(2)),
                                       Frame("foo", Some("App.tsx"), Some(10), Some(4))])
         == "    at foo (App.tsx:10:4)"
  {
    var core := Frame("dispatch", Some("node_modules/react-native/Libraries/x.js"), Some(1), Some(2));
    var app := Frame("foo", Some("App.tsx"), Some(10), Some(4));
    var path := "node_modules/react-native/Libraries/x.js";
    assert path[..|CoreFramesMarker|] == CoreFramesMarker;
    assert Contains(path, CoreFramesMarker);
    CoreFileLineDropped(core);
    AppFrameLine();
    var line := FormatFrame(app);
    assert |line| == |CoreFramesMarker| && line[0] != CoreFramesMarker[0];
    assert !Contains(line[1..], CoreFramesMarker);
    assert KeepLine(true, line);
    var lines := FormatFrames([core, app]);
    assert lines == [FormatFrame(core), line];
    assert FilterLines(true, lines) == FilterLines(true, [line]) by {
      assert lines[1..] == [line];
    }
    assert FilterLines(true, [line]) == [line];
  }
}
