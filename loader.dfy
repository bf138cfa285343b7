/** The loader: one line at a time into an instruction or a label directive,
    and the whole text into a program and its label table. */
module Loader {
  import opened Base
  import opened Text
  import opened Numbers
  import opened Syntax

  predicate EndsWithColon(s: string)
  {
    |s| > 0 && s[|s| - 1] == ':'
  }

  /** Checks that nothing is left after the `used` tokens an opcode consumes. */
  function Finish(pl: ParsedLine, toks: seq<string>, used: nat): Result<ParsedLine>
  {
    if |toks| > used then Err(TooManyOperands) else Ok(pl)
  }

  /** `parse_line`: the line is cut into tokens and the tokens are read. */
  function ParseLine(line: string): Result<ParsedLine>
  {
    ParseTokens(Tokens(line))
  }

  /** The token reading of `parse_line`: the first token picks the opcode;
      integer operands go through `parse_number`; a first token ending in `:`
      is a label directive. The first failure met, in token order, is the one
      reported, and "too many operands" is checked only after the line was
      otherwise accepted. */
  function ParseTokens(toks: seq<string>): Result<ParsedLine>
    requires |toks| >= 1
  {
    var opcode := toks[0];
    if opcode == "add" then Finish(Instr(Add), toks, 1)
    else if opcode == "sub" then Finish(Instr(Sub), toks, 1)
    else if opcode == "print" then Finish(Instr(Print), toks, 1)
    else if opcode == "pop" then Finish(Instr(Pop), toks, 1)
    else if opcode == "dup" then Finish(Instr(Dup), toks, 1)
    else if opcode == "je" || opcode == "jne" then
      if |toks| < 2 then Err(TooFewArguments)
      else match ParseI32(toks[1])
        case None => Err(UnparsedNumber)
        case Some(cmp) =>
          if |toks| < 3 then Err(TooFewArguments)
          else
            var target := toks[2];
            Finish(Instr(if opcode == "je" then JumpEqual(cmp, target) else JumpNotEqual(cmp, target)), toks, 3)
    else if opcode == "push" then
      if |toks| < 2 then Err(TooFewArguments)
      else match ParseI32(toks[1])
        case None => Err(UnparsedNumber)
        case Some(v) => Finish(Instr(Push(Number(v))), toks, 2)
    else if EndsWithColon(opcode) then Finish(Label(opcode[..|opcode| - 1]), toks, 1)
    else Err(UnknownOpcode)
  }

  /** `Interp::parse`: every line parsed, then the results assembled in
      order. As parsing a line has no effect, this is the same as the
      source's single pass that stops at the first failing line. */
  function Load(lines: seq<string>): Result<(Program, LabelMap)>
  {
    Assemble(ParsedLines(lines))
  }

  function ParsedLines(lines: seq<string>): (parsed: seq<Result<ParsedLine>>)
    ensures |parsed| == |lines|
  {
    seq(|lines|, i requires 0 <= i < |lines| => ParseLine(lines[i]))
  }

  /** The loop of `Interp::parse` as a left fold over parsed lines: each
      instruction is appended, each label is bound to the number of
      instructions emitted so far, and the first failure ends the load. */
  function Assemble(parsed: seq<Result<ParsedLine>>): Result<(Program, LabelMap)>
  {
    if |parsed| == 0 then Ok(([], map[]))
    else
      match Assemble(parsed[..|parsed| - 1])
      case Err(e) => Err(e)
      case Ok(loaded) => AddLine(loaded, parsed[|parsed| - 1])
  }

  /** The effect of one more parsed line on a partly loaded program. */
  function AddLine(loaded: (Program, LabelMap), line: Result<ParsedLine>): Result<(Program, LabelMap)>
  {
    var (program, labels) := loaded;
    match line
    case Err(e) => Err(e)
    case Ok(Instr(i)) => Ok((program + [i], labels))
    case Ok(Label(name)) =>
      if name in labels then Err(DuplicateLabel) else Ok((program, labels[name := |program|]))
  }

  /** Loading one more line on top of a loaded prefix; and once that fails,
      the whole text fails the same way. */
  lemma LoadSnoc(lines: seq<string>, n: nat, loaded: (Program, LabelMap))
    requires n < |lines| && Load(lines[..n]) == Ok(loaded)
    ensures Load(lines[..n + 1]) == AddLine(loaded, ParseLine(lines[n]))
    ensures Load(lines[..n + 1]).Err? ==> Load(lines) == Load(lines[..n + 1])
  {
    var parsed := ParsedLines(lines);
    assert ParsedLines(lines[..n + 1])[..n] == ParsedLines(lines[..n]);
    if Load(lines[..n + 1]).Err? {
      assert parsed[..n + 1] == ParsedLines(lines[..n + 1]);
      LoadStopsAtError(parsed, n + 1);
    }
  }

  /** `Interp::parse`: the loop that builds the program and the label table. */
  method Parse(lines: seq<string>) returns (r: Result<(Program, LabelMap)>)
    ensures r == Load(lines)
  {
    var program: Program := [];
    var labels: LabelMap := map[];
    for i := 0 to |lines|
      invariant Load(lines[..i]) == Ok((program, labels))
    {
      var line := ParseLine(lines[i]);
      LoadSnoc(lines, i, (program, labels));
      match line {
        case Err(e) =>
          return Err(e);
        case Ok(Instr(instr)) =>
          program := program + [instr];
        case Ok(Label(name)) =>
          if name in labels {
            return Err(DuplicateLabel);
          }
          labels := labels[name := |program|];
      }
    }
    assert lines[..|lines|] == lines;
    return Ok((program, labels));
  }

  /** Once a prefix of the lines fails to load, the whole text fails with the
      same error: later lines are never looked at. */
  lemma {:induction false} LoadStopsAtError(parsed: seq<Result<ParsedLine>>, n: nat)
    requires n <= |parsed| && Assemble(parsed[..n]).Err?
    ensures Assemble(parsed) == Assemble(parsed[..n])
  {
    if n < |parsed| {
      var m := |parsed| - 1;
      assert parsed[..m][..n] == parsed[..n];
      LoadStopsAtError(parsed[..m], n);
    } else {
      assert parsed[..n] == parsed;
    }
  }
}
