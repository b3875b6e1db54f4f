/** The station card's runtime dialog (src/stationcard/runtimedialog.ts): a small state
    machine over `open`, `runtime` and `error`. The `runAction` callback is recorded as
    the log `calls` of the runtimes it was given. */
module RuntimeDialog {
  import opened Base
  import opened CardCommon

  const MIN_RUNTIME := 10
  const MAX_RUNTIME := 1200
  const RANGE_ERROR := "Runtime must be between 10 and 1200 seconds"

  /** The accepted range, bounds included. */
  predicate InRange(runtime: int) {
    MIN_RUNTIME <= runtime <= MAX_RUNTIME
  }

  /** `OSPiCardRuntimeDialogOptionsType` without its callback. */
  datatype Options = Options(runtime: Option<int>)

  /** The options `show` stores: the runtime defaults to 60 when omitted. */
  function WithDefaultRuntime(options: Options): (r: Options)
    ensures r.runtime.Some?
    ensures options.runtime.Some? ==> r == options
    ensures options.runtime.None? ==> r.runtime == Some(DEFAULT_RUNTIME)
  {
    Options(Some(options.runtime.GetOr(DEFAULT_RUNTIME)))
  }

  class Dialog {
    var open: bool
    var runtime: int
    var error: Option<string>
    var config: Option<Options>
    /** Arguments of the calls of `config.runAction`, oldest first. */
    var calls: seq<int>

    /** The callback only ever receives a runtime in range, and after the first `show`
        the stored options carry a runtime. */
    ghost predicate Valid()
      reads this
    {
      && (forall x :: x in calls ==> InRange(x))
      && (config.Some? ==> config.value.runtime.Some?)
    }

    /** The dialog as created: closed, never shown. `runtime` is undefined in the source
        until the first `show`; it is 0 here and is not read before then. */
    constructor ()
      ensures Valid()
      ensures !open && runtime == 0 && error.None? && config.None? && calls == []
    {
      open := false;
      runtime := 0;
      error := None;
      config := None;
      calls := [];
    }

    /** `show`: store the options, take their runtime (60 when omitted), open. */
    method Show(options: Options)
      requires Valid()
      modifies this
      ensures Valid()
      ensures open
      ensures config == Some(WithDefaultRuntime(options))
      ensures runtime == options.runtime.GetOr(DEFAULT_RUNTIME)
      ensures error == old(error) && calls == old(calls)
    {
      config := Some(WithDefaultRuntime(options));
      runtime := config.value.runtime.value;
      open := true;
    }

    /** `close`: only `open` changes. */
    method Close()
      modifies this`open
      ensures !open
    {
      open := false;
    }

    /** `run`: a runtime in range closes the dialog, clears the error and calls the
        callback once with it; any other runtime sets the range error and does nothing
        else. The callback exists once the dialog has been shown. */
    method Run()
      requires Valid()
      requires InRange(runtime) ==> config.Some?
      modifies this
      ensures Valid()
      ensures runtime == old(runtime) && config == old(config)
      ensures InRange(runtime) ==> !open && error.None? && calls == old(calls) + [runtime]
      ensures !InRange(runtime) ==> open == old(open) && error == Some(RANGE_ERROR) && calls == old(calls)
    {
      if runtime >= MIN_RUNTIME && runtime <= MAX_RUNTIME {
        Close();
        error := None;
        calls := calls + [runtime];
      } else {
        error := Some(RANGE_ERROR);
      }
    }

    /** `runtimeChanged`: only `runtime` changes. */
    method RuntimeChanged(value: int)
      modifies this`runtime
      ensures runtime == value
    {
      runtime := value;
    }
  }
}
