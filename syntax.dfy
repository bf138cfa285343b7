/** The loaded form of a program: instructions, parsed lines, stack values
    and the label table. */
module Syntax {
  import opened Base

  /** The one kind of value on the operand stack. */
  datatype StackVal = Number(n: int32)

  datatype Instr =
    | Push(val: StackVal)
    | Pop
    | Add
    | Dup
    | Sub
    | JumpEqual(cmp: int32, target: string)     // jump to `target` if the popped value == `cmp`
    | JumpNotEqual(cmp: int32, target: string)  // jump to `target` if the popped value != `cmp`
    | Print

  /** What one source line turns into. */
  datatype ParsedLine = Label(name: string) | Instr(instr: Instr)

  /** The instruction sequence; an address is an index into it. The source
      pairs each instruction with a tracing location, which this model takes
      to be the instruction's own address. */
  type Program = seq<Instr>

  /** Label name to the address of the instruction that follows the label. */
  type LabelMap = map<string, nat>

  predicate IsJump(i: Instr)
  {
    i.JumpEqual? || i.JumpNotEqual?
  }

  /** The opcode word that introduces each instruction. */
  function OpName(i: Instr): string
  {
    match i
    case Push(_) => "push"
    case Pop => "pop"
    case Add => "add"
    case Dup => "dup"
    case Sub => "sub"
    case JumpEqual(_, _) => "je"
    case JumpNotEqual(_, _) => "jne"
    case Print => "print"
  }

  /** The fixed set of opcode words. */
  predicate IsOpcode(op: string)
  {
    op == "push" || op == "pop" || op == "add" || op == "dup" || op == "sub"
    || op == "je" || op == "jne" || op == "print"
  }

  /** How many operand tokens follow each opcode word (a label directive has none). */
  function Arity(op: string): nat
  {
    if op == "push" then 1 else if op == "je" || op == "jne" then 2 else 0
  }

  /** How many values an instruction pops before it can take effect. */
  function Pops(i: Instr): nat
  {
    match i
    case Push(_) => 0
    case Add => 2
    case Sub => 2
    case _ => 1
  }

  /** How many values it pushes back. */
  function Pushes(i: Instr): nat
  {
    match i
    case Push(_) => 1
    case Add => 1
    case Sub => 1
    case Dup => 2
    case _ => 0
  }
}
