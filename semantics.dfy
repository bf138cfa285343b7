/** The execution engine as a state machine over the immutable program: the
    effect of one instruction, and a run bounded by a number of steps. */
module Semantics {
  import opened Base
  import opened Syntax

  /** The engine's state: program counter, operand stack (top at the end) and
      the values printed so far. */
  datatype State = State(pc: nat, stack: seq<StackVal>, out: seq<int32>)

  /** Program counter 0, empty stack, nothing printed. */
  const Initial: State := State(0, [], [])

  /** Whether a jump instruction branches when it pops `v`. */
  predicate Taken(instr: Instr, v: int32)
  {
    match instr
    case JumpEqual(cmp, _) => v == cmp
    case JumpNotEqual(cmp, _) => v != cmp
    case _ => false
  }

  function Top(stack: seq<StackVal>): int32
    requires |stack| > 0
  {
    stack[|stack| - 1].n
  }

  /** One arm of the dispatch in `Interp::run`. Values are popped from the
      end of the stack; a pop from an empty stack is "stack underflow". */
  function Step(instr: Instr, labels: LabelMap, s: State): Result<State>
  {
    var st := s.stack;
    match instr
    case Push(v) => Ok(State(s.pc + 1, st + [v], s.out))
    case Add =>
      if |st| < 2 then Err(StackUnderflow)
      else
        var first, second := Top(st), Top(st[..|st| - 1]);
        Ok(State(s.pc + 1, st[..|st| - 2] + [Number(Wrap(first + second))], s.out))
    case Sub =>
      if |st| < 2 then Err(StackUnderflow)
      else
        var first, second := Top(st), Top(st[..|st| - 1]);
        Ok(State(s.pc + 1, st[..|st| - 2] + [Number(Wrap(second - first))], s.out))
    case Dup =>
      if |st| < 1 then Err(StackUnderflow)
      else Ok(State(s.pc + 1, st[..|st| - 1] + [st[|st| - 1], st[|st| - 1]], s.out))
    case Print =>
      if |st| < 1 then Err(StackUnderflow)
      else Ok(State(s.pc + 1, st[..|st| - 1], s.out + [Top(st)]))
    case Pop =>
      if |st| < 1 then Err(StackUnderflow)
      else Ok(State(s.pc + 1, st[..|st| - 1], s.out))
    case JumpEqual(_, target) =>
      if |st| < 1 then Err(StackUnderflow)
      else Jump(Taken(instr, Top(st)), target, labels, s.(stack := st[..|st| - 1]))
    case JumpNotEqual(_, target) =>
      if |st| < 1 then Err(StackUnderflow)
      else Jump(Taken(instr, Top(st)), target, labels, s.(stack := st[..|st| - 1]))
  }

  /** The end of a conditional jump, after its value was popped: the label is
      looked up by name only when the branch is taken. */
  function Jump(taken: bool, target: string, labels: LabelMap, s: State): (r: Result<State>)
    ensures r.Err? <==> taken && target !in labels
    ensures r.Err? ==> r.error == UndefinedLabel
    ensures r.Ok? ==> r.value.stack == s.stack && r.value.out == s.out
    ensures r.Ok? && taken ==> r.value.pc == labels[target]
    ensures r.Ok? && !taken ==> r.value.pc == s.pc + 1
  {
    if !taken then Ok(s.(pc := s.pc + 1))
    else if target in labels then Ok(s.(pc := labels[target]))
    else Err(UndefinedLabel)
  }

  datatype Status = Halted | Fault(error: Error) | OutOfFuel

  /** How a bounded run ended, the state it ended in (for a fault, the state
      just before the failing instruction), and the program counters the
      control point was notified of, in order. */
  datatype Execution = Execution(status: Status, final: State, trace: seq<nat>)

  /** The loop of `Interp::run`, allowed at most `fuel` instructions. The
      control point is notified of an instruction before it takes effect;
      running off the end of the program is the only normal halt. */
  function Exec(program: Program, labels: LabelMap, s: State, fuel: nat): Execution
    decreases fuel, 2
  {
    if s.pc >= |program| then Execution(Halted, s, [])
    else if fuel == 0 then Execution(OutOfFuel, s, [])
    else Continue(program, labels, s, fuel)
  }

  /** One turn of the loop: the control point is notified of the address,
      then the instruction there runs. */
  function Continue(program: Program, labels: LabelMap, s: State, fuel: nat): Execution
    requires s.pc < |program| && fuel > 0
    decreases fuel, 1
  {
    var r := Resume(program, labels, s, fuel);
    Execution(r.status, r.final, [s.pc] + r.trace)
  }

  /** The instruction at the program counter runs: a failure ends the run in
      the state before it; otherwise the run goes on from the new state with
      one step fewer. */
  function Resume(program: Program, labels: LabelMap, s: State, fuel: nat): Execution
    requires s.pc < |program| && fuel > 0
    decreases fuel, 0
  {
    match Step(program[s.pc], labels, s)
    case Err(e) => Execution(Fault(e), s, [])
    case Ok(next) => Exec(program, labels, next, fuel - 1)
  }
}
