/** What the engine promises: each instruction's effect on the stack, the
    program counter and the output, and how bounded runs relate to each
    other and to the textual order of the program. */
module SemanticsFacts {
  import opened Base
  import opened Syntax
  import opened Semantics

  /* ---------------- one instruction ---------------- */

  /** Stack discipline, against the table of `Pops` and `Pushes`: an
      instruction underflows exactly when the stack holds fewer values than
      it pops; otherwise the stack below the popped values is untouched and
      the stack height changes by pushes minus pops. Only `print` writes
      output, and what it writes is the value it popped. */
  lemma StepStackEffect(instr: Instr, labels: LabelMap, s: State)
    ensures Step(instr, labels, s) == Err(StackUnderflow) <==> |s.stack| < Pops(instr)
    ensures Step(instr, labels, s).Ok? ==>
      var t := Step(instr, labels, s).value;
      var kept := |s.stack| - Pops(instr);
      && |t.stack| == kept + Pushes(instr)
      && t.stack[..kept] == s.stack[..kept]
      && t.out == s.out + (if instr.Print? then [Top(s.stack)] else [])
  {
    var st := s.stack;
    var n := |st|;
    if Step(instr, labels, s).Ok? {
      var t := Step(instr, labels, s).value;
      var kept := n - Pops(instr);
      match instr {
        case Push(_) =>
          assert t.stack[..kept] == (st + [instr.val])[..n];
        case Add =>
          assert t.stack[..kept] == (st[..n - 2] + [t.stack[kept]])[..n - 2];
        case Sub =>
          assert t.stack[..kept] == (st[..n - 2] + [t.stack[kept]])[..n - 2];
        case Dup =>
          assert t.stack[..kept] == (st[..n - 1] + [st[n - 1], st[n - 1]])[..n - 1];
        case _ =>
      }
    }
  }

  /** The values an instruction leaves on top: `push` its operand, `add` the
      wrapped sum of the two popped values, `sub` the wrapped difference of
      the deeper value minus the top one, and `dup` two copies of the old top. */
  lemma StepTopValues(instr: Instr, labels: LabelMap, s: State)
    requires Step(instr, labels, s).Ok?
    ensures var t := Step(instr, labels, s).value;
      && (instr.Push? ==> t.stack == s.stack + [instr.val])
      && (instr.Add? ==> Top(t.stack) == Wrap(Top(s.stack[..|s.stack| - 1]) + Top(s.stack)))
      && (instr.Sub? ==> Top(t.stack) == Wrap(Top(s.stack[..|s.stack| - 1]) - Top(s.stack)))
      && (instr.Dup? ==> t.stack == s.stack + [s.stack[|s.stack| - 1]])
  {
    if instr.Dup? {
      var st := s.stack;
      assert st == st[..|st| - 1] + [st[|st| - 1]];
    }
  }

  /** Control flow: every instruction but a taken jump moves to the next
      address; a taken jump moves to its label's address. A jump pops its
      value before anything else, and fails with "undefined label" exactly
      when it is taken and its label is not bound. */
  lemma StepControl(instr: Instr, labels: LabelMap, s: State)
    requires |s.stack| >= Pops(instr)
    ensures Step(instr, labels, s) == Err(UndefinedLabel) <==>
      IsJump(instr) && Taken(instr, Top(s.stack)) && instr.target !in labels
    ensures Step(instr, labels, s).Ok? ==>
      Step(instr, labels, s).value.pc ==
        if IsJump(instr) && Taken(instr, Top(s.stack)) then labels[instr.target] else s.pc + 1
    ensures Step(instr, labels, s).Ok? && IsJump(instr) ==>
      Step(instr, labels, s).value.stack == s.stack[..|s.stack| - 1]
  {
  }

  /* ---------------- bounded runs ---------------- */

  /** One step of a run, stated once so that the proofs below need not
      unfold `Exec` themselves. */
  lemma ExecUnfold(program: Program, labels: LabelMap, s: State, fuel: nat, next: State)
    requires s.pc < |program| && fuel > 0
    requires Step(program[s.pc], labels, s) == Ok(next)
    ensures var r := Exec(program, labels, next, fuel - 1);
      Exec(program, labels, s, fuel) == Execution(r.status, r.final, [s.pc] + r.trace)
  {
    assert Resume(program, labels, s, fuel) == Exec(program, labels, next, fuel - 1);
  }

  /** A run that starts outside the program halts at once, without notifying
      the control point; a run with no fuel left stops at once as well. */
  lemma ExecStop(program: Program, labels: LabelMap, s: State, fuel: nat)
    requires s.pc >= |program| || fuel == 0
    ensures Exec(program, labels, s, fuel) ==
      Execution(if s.pc >= |program| then Halted else OutOfFuel, s, [])
  {
  }

  /** A failing instruction ends the run in the state before it, after
      notifying the control point of it. */
  lemma ExecFault(program: Program, labels: LabelMap, s: State, fuel: nat, e: Error)
    requires s.pc < |program| && fuel > 0
    requires Step(program[s.pc], labels, s) == Err(e)
    ensures Exec(program, labels, s, fuel) == Execution(Fault(e), s, [s.pc])
  {
    assert Resume(program, labels, s, fuel) == Execution(Fault(e), s, []);
  }

  /** The shape of every bounded run: it halts exactly when the program
      counter has left the program; it notifies at most `fuel` times, and
      exactly `fuel` times when cut short; every notified address is inside
      the program and the first is the starting address; a fault is reported
      at the last notified address; output is only ever appended to. */
  lemma {:induction false} ExecShape(program: Program, labels: LabelMap, s: State, fuel: nat)
    ensures var r := Exec(program, labels, s, fuel);
      && (r.status.Halted? <==> r.final.pc >= |program|)
      && |r.trace| <= fuel
      && (r.status.OutOfFuel? ==> |r.trace| == fuel)
      && (forall k :: 0 <= k < |r.trace| ==> r.trace[k] < |program|)
      && (|r.trace| > 0 ==> r.trace[0] == s.pc)
      && (r.status.Fault? ==> |r.trace| > 0 && r.trace[|r.trace| - 1] == r.final.pc)
      && s.out <= r.final.out
    decreases fuel
  {
    if s.pc < |program| && fuel > 0 {
      match Step(program[s.pc], labels, s) {
        case Err(e) =>
          ExecFault(program, labels, s, fuel, e);
        case Ok(next) =>
          ExecUnfold(program, labels, s, fuel, next);
          ExecShape(program, labels, next, fuel - 1);
      }
    }
  }

  /** Fuel only cuts a run short: a run that ended within its bound ends the
      same way with any larger bound. */
  lemma {:induction false} ExecMoreFuel(program: Program, labels: LabelMap, s: State, fuel: nat, extra: nat)
    requires !Exec(program, labels, s, fuel).status.OutOfFuel?
    ensures Exec(program, labels, s, fuel + extra) == Exec(program, labels, s, fuel)
    decreases fuel
  {
    if s.pc < |program| && fuel > 0 {
      match Step(program[s.pc], labels, s) {
        case Err(e) =>
          ExecFault(program, labels, s, fuel, e);
          ExecFault(program, labels, s, fuel + extra, e);
        case Ok(next) =>
          ExecUnfold(program, labels, s, fuel, next);
          ExecUnfold(program, labels, s, fuel + extra, next);
          ExecMoreFuel(program, labels, next, fuel - 1, extra);
      }
    }
  }

  /** A run cut short can be resumed: running `first` then `second` steps is
      running `first + second` steps, with the notifications concatenated. */
  lemma {:induction false} ExecResume(program: Program, labels: LabelMap, s: State, first: nat, second: nat)
    requires Exec(program, labels, s, first).status.OutOfFuel?
    ensures var r1 := Exec(program, labels, s, first);
      var r2 := Exec(program, labels, r1.final, second);
      Exec(program, labels, s, first + second) == Execution(r2.status, r2.final, r1.trace + r2.trace)
    decreases first
  {
    if first > 0 {
      if Step(program[s.pc], labels, s).Err? {
        ExecFault(program, labels, s, first, Step(program[s.pc], labels, s).error);
      }
      var next := Step(program[s.pc], labels, s).value;
      ExecUnfold(program, labels, s, first, next);
      ExecUnfold(program, labels, s, first + second, next);
      ExecResume(program, labels, next, first - 1, second);
      var inner := Exec(program, labels, next, first - 1);
      var outer := Exec(program, labels, s, first);
      assert outer.final == inner.final && outer.trace == [s.pc] + inner.trace;
      var r2 := Exec(program, labels, inner.final, second);
      var whole := Exec(program, labels, next, first + second - 1);
      assert first - 1 + second == first + second - 1;
      assert whole == Execution(r2.status, r2.final, inner.trace + r2.trace);
      assert Exec(program, labels, s, first + second) == Execution(whole.status, whole.final, [s.pc] + whole.trace);
      assert [s.pc] + (inner.trace + r2.trace) == outer.trace + r2.trace;
    } else {
      assert Exec(program, labels, s, first).trace == [];
      assert Exec(program, labels, s, first).final == s;
      assert [] + Exec(program, labels, s, second).trace == Exec(program, labels, s, second).trace;
    }
  }

  predicate JumpFree(program: Program)
  {
    forall k :: 0 <= k < |program| ==> !IsJump(program[k])
  }

  /** Without jumps, instructions execute in textual order: the k-th
      notification is of address `s.pc + k`, and a run that halts has
      notified every address from `s.pc` to the end exactly once. */
  lemma {:induction false} ExecStraightLine(program: Program, labels: LabelMap, s: State, fuel: nat)
    requires JumpFree(program) && s.pc <= |program|
    ensures var r := Exec(program, labels, s, fuel);
      && (forall k :: 0 <= k < |r.trace| ==> r.trace[k] == s.pc + k)
      && (r.status.Halted? ==> |r.trace| == |program| - s.pc && r.final.pc == |program|)
    decreases fuel
  {
    if s.pc < |program| && fuel > 0 {
      match Step(program[s.pc], labels, s) {
        case Err(e) =>
          ExecFault(program, labels, s, fuel, e);
        case Ok(next) =>
          StepControl(program[s.pc], labels, s);
          ExecUnfold(program, labels, s, fuel, next);
          ExecStraightLine(program, labels, next, fuel - 1);
      }
    }
  }

  /** From the initial state, a jump-free program that runs to completion
      notifies the control point of the addresses 0, 1, ..., n-1 in that
      order. */
  lemma StraightLineTrace(program: Program, labels: LabelMap, fuel: nat)
    requires JumpFree(program)
    requires Exec(program, labels, Initial, fuel).status.Halted?
    ensures Exec(program, labels, Initial, fuel).trace == seq(|program|, k => k)
  {
    ExecStraightLine(program, labels, Initial, fuel);
  }
}
