/** Shared vocabulary of the interpreter: the 32-bit integer that is the only
    value kind, the fatal errors, and the failure-compatible wrappers used in
    place of a process exit. */
module Base {

  const I32_MIN: int := -0x8000_0000
  const I32_MAX: int := 0x7fff_ffff

  /** The interpreter's `RawNumber`, a signed 32-bit integer. */
  type int32 = x: int | I32_MIN <= x <= I32_MAX

  /** Two's-complement wrap-around of an unbounded integer into 32 bits: what
      `+` and `-` on `i32` do in a release build. */
  function Wrap(x: int): (r: int32)
    ensures (r - x) % 0x1_0000_0000 == 0
    ensures I32_MIN <= x <= I32_MAX ==> r == x
  {
    (x - I32_MIN) % 0x1_0000_0000 + I32_MIN
  }

  datatype Option<+T> = None | Some(value: T)

  /** Every way the interpreter can stop with `fatal`. */
  datatype Error =
    | UnparsedNumber
    | TooFewArguments
    | TooManyOperands
    | UnknownOpcode
    | DuplicateLabel
    | StackUnderflow
    | UndefinedLabel

  /** The diagnostic `fatal` writes before exiting. */
  function Message(e: Error): string
  {
    "FATAL: " +
    match e
    case UnparsedNumber => "parse error: unparsed number"
    case TooFewArguments => "parse error: too few arguments"
    case TooManyOperands => "parse error: too many operands"
    case UnknownOpcode => "parse error: unknown opcode"
    case DuplicateLabel => "parse error: duplicate label"
    case StackUnderflow => "stack underflow"
    case UndefinedLabel => "undefined label"
  }

  /** Every message starts with `FATAL: `, and no two errors share one, so
      the diagnostic names the error. */
  lemma MessageNamesError(e1: Error, e2: Error)
    ensures Message(e1)[..7] == "FATAL: "
    ensures Message(e1) == Message(e2) ==> e1 == e2
  {
    if Message(e1) == Message(e2) {
      assert Message(e1)[7..] == Message(e2)[7..];
    }
  }

  datatype Result<+T> = Ok(value: T) | Err(error: Error) {
    predicate IsFailure() { Err? }

    function PropagateFailure<U>(): Result<U>
      requires Err?
    {
      Err(error)
    }

    function Extract(): T
      requires Ok?
    {
      value
    }
  }
}
