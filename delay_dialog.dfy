/** The system card's delay dialog (src/systemcard/delaydialog.ts): a small state
    machine over `open`, `delay` and `error`. The `delayAction` callback is recorded as
    the log `calls` of the delays it was given. */
module DelayDialog {
  import opened Base

  /** `OSPiSystemCardDelayDialogOptionsType` without its callback. */
  datatype Options = Options(title: string, delay: Option<int>, delayUnit: string)

  /** `config.delay || 0`. */
  function InitialDelay(options: Options): (r: int)
    ensures IntTruthy(options.delay) ==> r == options.delay.value
    ensures r == options.delay.GetOr(0)
  {
    if IntTruthy(options.delay) then options.delay.value else 0
  }

  class Dialog {
    var open: bool
    var delay: int
    var error: Option<string>
    var config: Option<Options>
    /** Arguments of the calls of `config.delayAction`, oldest first. */
    var calls: seq<int>

    /** Nothing in this dialog ever sets an error: it has no range check. */
    ghost predicate Valid()
      reads this
    {
      error.None?
    }

    /** The dialog as created: closed, never shown. `delay` is undefined in the source
        until the first `show`; it is 0 here and is not read before then. */
    constructor ()
      ensures Valid()
      ensures !open && delay == 0 && config.None? && calls == []
    {
      open := false;
      delay := 0;
      error := None;
      config := None;
      calls := [];
    }

    /** `show`: store a copy of the options, take their delay when truthy (else 0), open. */
    method Show(options: Options)
      modifies this
      ensures open
      ensures config == Some(options)
      ensures delay == InitialDelay(options)
      ensures error == old(error) && calls == old(calls)
    {
      config := Some(options);
      delay := InitialDelay(options);
      open := true;
    }

    /** `close`: only `open` changes. */
    method Close()
      modifies this`open
      ensures !open
    {
      open := false;
    }

    /** `delayAction`: always closes, clears the error and calls the callback once with
        the current delay; there is no range check. The callback exists once shown. */
    method DelayAction()
      requires config.Some?
      modifies this
      ensures Valid()
      ensures !open && delay == old(delay) && config == old(config)
      ensures calls == old(calls) + [delay]
    {
      Close();
      error := None;
      calls := calls + [delay];
    }

    /** `delayChanged`: only `delay` changes. */
    method DelayChanged(value: int)
      modifies this`delay
      ensures delay == value
    {
      delay := value;
    }
  }
}
