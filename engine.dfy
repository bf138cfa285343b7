/** The interpreter object: its operand stack, its program counter and the
    dispatch loop of `Interp::run`, each proved to follow the state machine
    of module Semantics; and the whole system, load then run. */
module Engine {
  import opened Base
  import opened Syntax
  import opened Loader
  import opened Semantics
  import opened SemanticsFacts

  /** The operand stack, a growable vector addressed from its end. */
  class Stack {
    var items: seq<StackVal>

    constructor ()
      ensures items == []
    {
      items := [];
    }

    method Push(v: StackVal)
      modifies this
      ensures items == old(items) + [v]
    {
      items := items + [v];
    }

    /** Removes and returns the top value; on an empty stack, "stack underflow". */
    method Pop() returns (r: Result<StackVal>)
      modifies this
      ensures old(items) == [] ==> r == Err(StackUnderflow) && items == []
      ensures old(items) != [] ==>
        r == Ok(old(items)[|old(items)| - 1]) && items == old(items)[..|old(items)| - 1]
    {
      if items == [] {
        return Err(StackUnderflow);
      }
      r := Ok(items[|items| - 1]);
      items := items[..|items| - 1];
    }

    /** `Pop`, then the number inside the value. */
    method PopNumber() returns (r: Result<int32>)
      modifies this
      ensures old(items) == [] ==> r == Err(StackUnderflow) && items == []
      ensures old(items) != [] ==>
        r == Ok(Top(old(items))) && items == old(items)[..|old(items)| - 1]
    {
      var item := Pop();
      if item.Err? {
        return Err(item.error);
      }
      return Ok(item.value.n);
    }
  }

  /** The interpreter: an immutable program and label table, a stack, a
      program counter, the values printed so far, and the log of control
      point notifications. */
  class Interp {
    const program: Program
    const labels: LabelMap
    const stack: Stack
    var pc: nat
    var output: seq<int32>
    ghost var trace: seq<nat>

    /** The abstract state this object stands for. */
    ghost function Current(): State
      reads this, stack
    {
      State(pc, stack.items, output)
    }

    /** `Interp::new` once the text is loaded: program counter 0, empty stack. */
    constructor (program: Program, labels: LabelMap)
      ensures this.program == program && this.labels == labels
      ensures fresh(stack) && Current() == Initial && trace == []
    {
      this.program := program;
      this.labels := labels;
      stack := new Stack();
      pc := 0;
      output := [];
      trace := [];
    }

    /** One arm of the dispatch `match`: on success the new state is what
      `Step` says; on failure the error is the one `Step` gives, and nothing
      has been printed and the program counter has not moved. */
    method Execute(instr: Instr) returns (failure: Option<Error>)
      modifies this, stack
      ensures trace == old(trace)
      ensures var r := Step(instr, labels, old(Current()));
        && (r.Ok? ==> failure == None && Current() == r.value)
        && (r.Err? ==> failure == Some(r.error) && output == old(output) && pc == old(pc))
    {
      match instr {
        case Push(v) =>
          stack.Push(v);
          pc := pc + 1;
        case Add =>
          failure := Arithmetic(instr);
          return;
        case Sub =>
          failure := Arithmetic(instr);
          return;
        case Dup =>
          var val := stack.Pop();
          if val.Err? { return Some(val.error); }
          stack.Push(val.value);
          stack.Push(val.value);
          pc := pc + 1;
        case Print =>
          var arg := stack.PopNumber();
          if arg.Err? { return Some(arg.error); }
          output := output + [arg.value];
          pc := pc + 1;
        case Pop =>
          var val := stack.Pop();
          if val.Err? { return Some(val.error); }
          pc := pc + 1;
        case JumpNotEqual(_, _) =>
          failure := Branch(instr);
          return;
        case JumpEqual(_, _) =>
          failure := Branch(instr);
          return;
      }
      return None;
    }

    /** The arms of `add` and `sub`: pop the top value, then the one below
      it, and push their wrapped sum, or the deeper value minus the top one. */
    method Arithmetic(instr: Instr) returns (failure: Option<Error>)
      requires instr.Add? || instr.Sub?
      modifies this, stack
      ensures trace == old(trace)
      ensures var r := Step(instr, labels, old(Current()));
        && (r.Ok? ==> failure == None && Current() == r.value)
        && (r.Err? ==> failure == Some(r.error) && output == old(output) && pc == old(pc))
    {
      ghost var st := stack.items;
      var first := stack.PopNumber();
      if first.Err? { return Some(first.error); }
      var second := stack.PopNumber();
      if second.Err? { return Some(second.error); }
      assert stack.items == st[..|st| - 2] && second.value == Top(st[..|st| - 1]);
      if instr.Add? {
        stack.Push(Number(Wrap(first.value as int + second.value)));
      } else {
        stack.Push(Number(Wrap(second.value as int - first.value)));
      }
      pc := pc + 1;
      return None;
    }

    /** The arms of `je` and `jne`: pop the value, and only when the branch
      is taken look the label up. */
    method Branch(instr: Instr) returns (failure: Option<Error>)
      requires IsJump(instr)
      modifies this, stack
      ensures trace == old(trace)
      ensures var r := Step(instr, labels, old(Current()));
        && (r.Ok? ==> failure == None && Current() == r.value)
        && (r.Err? ==> failure == Some(r.error) && output == old(output) && pc == old(pc))
    {
      var val := stack.PopNumber();
      if val.Err? { return Some(val.error); }
      if Taken(instr, val.value) {
        if instr.target in labels {
          pc := labels[instr.target];
        } else {
          return Some(UndefinedLabel);
        }
      } else {
        pc := pc + 1;
      }
      return None;
    }

    /** One turn of the loop of `Interp::run`: notify the control point of
      the current address, then execute the instruction there, which leaves
      the state `Step` gives. Stated against `Exec`: the run from here with
      `fuel` steps is this instruction followed by the run from the new state
      with one step fewer, or, on failure, a fault in the state before the
      instruction. */
    method Cycle(ghost fuel: nat) returns (failure: Option<Error>)
      requires pc < |program| && fuel > 0
      modifies this, stack
      ensures trace == old(trace) + [old(pc)]
      ensures failure.None? ==> Step(program[old(pc)], labels, old(Current())) == Ok(Current())
      ensures failure.Some? ==>
        && Exec(program, labels, old(Current()), fuel) == Execution(Fault(failure.value), old(Current()), [old(pc)])
        && pc == old(pc) && output == old(output)
      ensures failure.None? ==>
        var r := Exec(program, labels, Current(), fuel - 1);
        Exec(program, labels, old(Current()), fuel) == Execution(r.status, r.final, [old(pc)] + r.trace)
    {
      ghost var before := Current();
      trace := trace + [pc];  // the control point
      failure := Execute(program[pc]);
      if failure.Some? {
        ExecFault(program, labels, before, fuel, failure.value);
      } else {
        ExecUnfold(program, labels, before, fuel, Current());
      }
    }

    /** `Interp::run`, allowed at most `fuel` instructions: it notifies the
      control point of each instruction before executing it and stops when
      the program counter leaves the program, when an instruction fails, or
      when the fuel is spent. It ends as `Exec` says: same status, same
      output, the same notifications appended to the log, and, unless an
      instruction failed part-way, the same program counter and stack. */
    method Run(fuel: nat) returns (status: Status)
      modifies this, stack
      ensures var r := Exec(program, labels, old(Current()), fuel);
        && status == r.status
        && output == r.final.out
        && trace == old(trace) + r.trace
        && (status.Fault? ==> pc == r.final.pc)
        && (!status.Fault? ==> Current() == r.final)
    {
      ghost var whole := Exec(program, labels, Current(), fuel);
      ghost var done: seq<nat> := [];
      var remaining := fuel;
      while true
        invariant trace == old(trace) + done
        invariant var rest := Exec(program, labels, Current(), remaining);
          whole.status == rest.status && whole.final == rest.final && whole.trace == done + rest.trace
        decreases remaining
      {
        if pc >= |program| || remaining == 0 {
          // end of program, or out of fuel
          ExecStop(program, labels, Current(), remaining);
          assert whole.final == Current() && whole.trace == done + [] == done;
          return if pc >= |program| then Halted else OutOfFuel;
        }
        ghost var before := Current();
        var failure := Cycle(remaining);
        if failure.Some? {
          assert whole.final == before && whole.trace == done + [before.pc];
          done := done + [before.pc];
          return Fault(failure.value);
        }
        ghost var rest := Exec(program, labels, Current(), remaining - 1);
        assert done + ([before.pc] + rest.trace) == (done + [before.pc]) + rest.trace;
        done := done + [before.pc];
        remaining := remaining - 1;
      }
    }
  }

  /** What the program does as a whole: it fails to load, or it runs and
      prints values until it halts, faults or the fuel is spent. */
  datatype Outcome = LoadFailed(error: Error) | Ran(status: Status, output: seq<int32>)

  /** The specification of the whole interpreter: load the lines, then run
      from program counter 0 on an empty stack. */
  function Interpretation(lines: seq<string>, fuel: nat): Outcome
  {
    match Load(lines)
    case Err(e) => LoadFailed(e)
    case Ok((program, labels)) =>
      var r := Exec(program, labels, Initial, fuel);
      Ran(r.status, r.final.out)
  }

  /** `Interp::new` followed by `run`: parse the lines, build the
      interpreter, run it. */
  method Interpret(lines: seq<string>, fuel: nat) returns (outcome: Outcome)
    ensures outcome == Interpretation(lines, fuel)
  {
    var loaded := Parse(lines);
    if loaded.Err? {
      return LoadFailed(loaded.error);
    }
    var interp := new Interp(loaded.value.0, loaded.value.1);
    var status := interp.Run(fuel);
    return Ran(status, interp.output);
  }
}
