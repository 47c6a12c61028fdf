/**
  The launcher's abort helpers (src/panic.rs). `panic_fancy` prints a banner and the
  message, sleeps, and unwinds; here the divergence is the `Abort` case of `Fancy`,
  carrying the message, and the printed text is `ErrorOutput`.
*/
module Panic {
  import opened Wrappers

  /** What a call that may end in `panic_fancy` produces: a value, or an abort with its message. */
  datatype Fancy<+T> = Value(value: T) | Abort(msg: string)

  /** The first line `panic_fancy` writes to standard error. */
  const Banner: string := "Oxygen encountered an error!\n"

  /** `panic_fancy(msg)`: never yields a value; it aborts with exactly `msg`. */
  function PanicFancy<T>(msg: string): (r: Fancy<T>)
    ensures !r.Value?
    ensures r.msg == msg
  {
    Abort(msg)
  }

  /**
    The text the `eprintln!` of `panic_fancy(msg)` writes to standard error: the banner,
    the message, and the line feed `eprintln!` ends every line with. The unwinding
    `panic!` that follows writes its own report after it.
  */
  function ErrorOutput(msg: string): (out: string)
    ensures |out| == |Banner| + |msg| + 1
    ensures out[..|Banner|] == Banner && out[|Banner|..|out| - 1] == msg && out[|out| - 1] == '\n'
  {
    Banner + msg + "\n"
  }

  /** Recovers the message from a standard-error text, if it is the banner, a text and a final line feed. */
  function StripBanner(out: string): (msg: Option<string>)
    ensures msg.Some? <==> |Banner| < |out| && out[..|Banner|] == Banner && out[|out| - 1] == '\n'
    ensures msg.Some? ==> msg.value == out[|Banner|..|out| - 1]
  {
    if |Banner| < |out| && out[..|Banner|] == Banner && out[|out| - 1] == '\n' then
      Some(out[|Banner|..|out| - 1])
    else
      None
  }

  /** The standard-error text determines the abort message: the banner and the line feed are the only additions. */
  lemma ErrorOutputRoundTrip(msg: string)
    ensures StripBanner(ErrorOutput(msg)) == Some(msg)
  {
  }

  /** Two aborts print the same text only if they carry the same message. */
  lemma ErrorOutputInjective(m1: string, m2: string)
    requires ErrorOutput(m1) == ErrorOutput(m2)
    ensures m1 == m2
  {
    ErrorOutputRoundTrip(m1);
    ErrorOutputRoundTrip(m2);
  }

  /**
    `Result::expect_fancy(msg)`: an `Ok` value is returned unchanged; an `Err(e)` aborts
    with `msg`, a newline, and the `Display` text of `e` (`display`).
  */
  function ExpectResult<T, E>(res: Result<T, E>, msg: string, display: E -> string): (r: Fancy<T>)
    ensures r.Value? <==> res.Ok?
    ensures res.Ok? ==> r.value == res.value
    ensures res.Err? ==> r.msg == msg + "\n" + display(res.error)
    ensures res.Err? ==> r.msg[..|msg|] == msg && r.msg[|msg|] == '\n' && r.msg[|msg| + 1..] == display(res.error)
  {
    match res
    case Ok(v) => Value(v)
    case Err(e) => PanicFancy(msg + "\n" + display(e))
  }

  /** `Option::expect_fancy(msg)`: a `Some` value is returned unchanged; `None` aborts with exactly `msg`. */
  function ExpectOption<T>(opt: Option<T>, msg: string): (r: Fancy<T>)
    ensures r.Value? <==> opt.Some?
    ensures opt.Some? ==> r.value == opt.value
    ensures opt.None? ==> r.msg == msg
  {
    match opt
    case Some(v) => Value(v)
    case None => PanicFancy(msg)
  }
}
