/**
  `installConsoleSymbolicator` of src/index.tsx: with the development flag
  set, the six console slots are snapshotted and each is replaced by a
  wrapper around its previous value; every wrapper reports its own failures
  through the previous `error` function. With the flag clear nothing changes.
*/
module Installer {
  import opened Symbolication

  /** The six console entry points the installer replaces. */
  datatype Channel = Error | Warn | Log | Info | Debug | Assert

  /** The six slot values, as a value (the record `originalConsole`). */
  datatype Bindings = Bindings(error: Slot, warn: Slot, log: Slot, info: Slot, debug: Slot, assert_: Slot)

  function Get(b: Bindings, ch: Channel): Slot
  {
    match ch
    case Error => b.error
    case Warn => b.warn
    case Log => b.log
    case Info => b.info
    case Debug => b.debug
    case Assert => b.assert_
  }

  /** The bindings after an install from `before`. */
  function Installed(devMode: bool, excludeCoreFrames: bool, before: Bindings): Bindings
  {
    if !devMode then before
    else
      var fallback := before.error;
      Bindings(Wrapper(before.error, fallback, excludeCoreFrames),
               Wrapper(before.warn, fallback, excludeCoreFrames),
               Wrapper(before.log, fallback, excludeCoreFrames),
               Wrapper(before.info, fallback, excludeCoreFrames),
               Wrapper(before.debug, fallback, excludeCoreFrames),
               Wrapper(before.assert_, fallback, excludeCoreFrames))
  }

  /** With the development flag clear, installing changes no slot. */
  lemma InstallOffIsNoOp(excludeCoreFrames: bool, before: Bindings)
    ensures forall ch :: Get(Installed(false, excludeCoreFrames, before), ch) == Get(before, ch)
  {
  }

  /**
    With the flag set, each slot wraps exactly its own previous value, and
    every wrapper's fallback logger is the previous `error` slot, for `log`
    as much as for `error`.
  */
  lemma InstallWrapsEachSlot(excludeCoreFrames: bool, before: Bindings)
    ensures forall ch :: Get(Installed(true, excludeCoreFrames, before), ch)
                      == Wrapper(Get(before, ch), before.error, excludeCoreFrames)
  {
  }

  /** The six wrappers are pairwise distinct whenever the six previous values are. */
  lemma InstallKeepsSlotsApart(excludeCoreFrames: bool, before: Bindings, c1: Channel, c2: Channel)
    requires Get(before, c1) != Get(before, c2)
    ensures Get(Installed(true, excludeCoreFrames, before), c1) != Get(Installed(true, excludeCoreFrames, before), c2)
  {
    InstallWrapsEachSlot(excludeCoreFrames, before);
  }

  /**
    A second install wraps the wrappers: the new `log` wrapper's original is
    the first `log` wrapper, and its fallback logger is the first `error`
    wrapper rather than the native `error` function.
  */
  lemma ReinstallNests(x1: bool, x2: bool, before: Bindings)
    ensures var once := Installed(true, x1, before);
            var twice := Installed(true, x2, once);
            Get(twice, Log) == Wrapper(Wrapper(before.log, before.error, x1), Wrapper(before.error, before.error, x1), x2)
  {
  }

  /** The process-wide `console` object, reduced to its six replaceable slots. */
  class Console {
    var error: Slot
    var warn: Slot
    var log: Slot
    var info: Slot
    var debug: Slot
    var assert_: Slot

    constructor (b: Bindings)
      ensures Current() == b
    {
      error, warn, log, info, debug, assert_ := b.error, b.warn, b.log, b.info, b.debug, b.assert_;
    }

    function Current(): Bindings
      reads this
    {
      Bindings(error, warn, log, info, debug, assert_)
    }

    /** `installConsoleSymbolicator({excludeReactNativeCoreFrames})` under the flag `__DEV__ == devMode`. */
    method Install(devMode: bool, excludeCoreFrames: bool)
      modifies this
      ensures Current() == Installed(devMode, excludeCoreFrames, old(Current()))
    {
      if !devMode {
        return;
      }
      var original := Current();
      var fallback := original.error;
      error := Wrapper(original.error, fallback, excludeCoreFrames);
      warn := Wrapper(original.warn, fallback, excludeCoreFrames);
      log := Wrapper(original.log, fallback, excludeCoreFrames);
      info := Wrapper(original.info, fallback, excludeCoreFrames);
      debug := Wrapper(original.debug, fallback, excludeCoreFrames);
      assert_ := Wrapper(original.assert_, fallback, excludeCoreFrames);
    }

    /**
      A call `console.<ch>(...args)`: a native slot is called directly with
      the arguments unchanged; a wrapper runs the symbolication pipeline.
    */
    method Invoke(ch: Channel, args: seq<Value>, sym: Symbolicator, out: CallLog)
      modifies ObjectsOf(args), sym, out
      ensures Get(Current(), ch).Native? ==>
                && out.calls == old(out.calls) + [Call(Get(Current(), ch), args)]
                && sym.requests == old(sym.requests)
                && forall o :: o in ObjectsOf(args) ==> o.message == old(o.message) && o.stack == old(o.stack)
      ensures Get(Current(), ch).Wrapper? ==>
                var w := Get(Current(), ch);
                WrapperCallDone(w.original, w.logError, w.excludeCoreFrames, args, sym, out)
    {
      var slot := Get(Current(), ch);
      match slot {
        case Native(_) =>
          out.Record(Call(slot, args));
        case Wrapper(original, logError, excludeCoreFrames) =>
          SymbolicatedCall(original, logError, excludeCoreFrames, args, sym, out);
      }
    }
  }
}
