/** Worked scenarios: single lines, whole texts and runs of small programs. */
module Examples {
  import opened Base
  import opened Text
  import opened Numbers
  import opened Syntax
  import opened Loader
  import opened Semantics
  import opened SemanticsFacts
  import opened LoaderFacts
  import opened Engine

  /* ---------------- lines ---------------- */

  /** Two spaces after `push` leave an empty operand, which is not a number. */
  lemma DoubleSpace()
    ensures ParseLine(Join(["push", "", "5"])) == Err(UnparsedNumber)
  {
    TokensOfWords(["push", "", "5"]);
  }

  /** The error cases of `parse_line` on tokens: extra tokens after a label
      directive, a jump missing its target, a jump whose operand is not a
      number, an empty opcode, and a directive naming the empty label. */
  lemma LineErrors()
    ensures ParseTokens(["x:", "y"]) == Err(TooManyOperands)
    ensures ParseTokens(["je", "1"]) == Err(TooFewArguments)
    ensures ParseTokens(["je", "one"]) == Err(UnparsedNumber)
    ensures ParseTokens([""]) == Err(UnknownOpcode)
    ensures ParseTokens([":"]) == Ok(Label(""))
  {
  }

  /** The same cases on whole lines: an empty line, `x: y` and `je 1`. */
  lemma LineErrorsOnLines()
    ensures ParseLine("") == Err(UnknownOpcode)
    ensures ParseLine(Join(["x:", "y"])) == Err(TooManyOperands)
    ensures ParseLine(Join(["je", "1"])) == Err(TooFewArguments)
  {
    ParseBlankLine("");
    assert "x" + ":" == "x:";
    ParseLabelWithOperand("x", "y");
    assert Show(1) == "1";
    ParseJumpWithoutTarget("je", 1);
  }

  /** `je one`: the jump's operand is not a number. */
  lemma JumpOperandNotNumber()
    ensures ParseLine(Join(["je", "one"])) == Err(UnparsedNumber)
  {
    ParseJumpBadOperand("je", "one", []);
    assert ["je", "one"] + [] == ["je", "one"];
  }

  /** A lone `:` binds the empty label. */
  lemma EmptyLabel()
    ensures ParseLine(":") == Ok(Label(""))
  {
    assert "" + ":" == ":";
    ParseLabelDirective("");
  }

  /* ---------------- whole texts ---------------- */

  lemma DuplicateLoop()
    ensures Assemble([Ok(Label("loop")), Ok(Instr(Pop)), Ok(Label("loop"))]) == Err(DuplicateLabel)
  {
    var parsed: seq<Result<ParsedLine>> := [Ok(Label("loop")), Ok(Instr(Pop)), Ok(Label("loop"))];
    assert parsed[..2][..1] == [Ok(Label("loop"))];
    assert Assemble(parsed[..2][..1]) == Ok(([], map["loop" := 0]));
    assert [] + [Pop] == [Pop];
    assert Assemble(parsed[..2]) == Ok(([Pop], map["loop" := 0]));
  }

  /** The forward-jump program below as parsed lines: `skip:` comes after
      the jump that names it, and is bound to 4, the number of instructions
      before it. */
  const SkipAheadLines: seq<Result<ParsedLine>> :=
    [Ok(Instr(Push(Number(0)))), Ok(Instr(JumpEqual(0, "skip"))), Ok(Instr(Push(Number(99)))),
     Ok(Instr(Pop)), Ok(Label("skip")), Ok(Instr(Push(Number(1)))), Ok(Instr(Print))]

  lemma SkipAheadLoads()
    ensures Assemble(SkipAheadLines) == Ok((SkipAhead, map["skip" := 4]))
  {
    var parsed := SkipAheadLines;
    var first := SkipAhead[..4];
    assert Assemble(parsed[..4]) == Ok((first, map[])) by {
      assert parsed[..4] == seq(4, k requires 0 <= k < 4 => Ok(Instr(first[k])));
      AssembleInstrs(first);
    }
    AssembleSnoc(parsed, 4);
    AssembleSnoc(parsed, 5);
    AssembleSnoc(parsed, 6);
    assert parsed[..7] == parsed;
    assert first + [Push(Number(1))] + [Print] == SkipAhead;
  }

  lemma LabelAtEnd()
    ensures Assemble([Ok(Instr(Pop)), Ok(Label("end"))]) == Ok(([Pop], map["end" := 1]))
  {
    var parsed: seq<Result<ParsedLine>> := [Ok(Instr(Pop)), Ok(Label("end"))];
    assert parsed[..1] == [Ok(Instr(Pop))];
    assert parsed[..1][..0] == [];
    assert [] + [Pop] == [Pop];
    assert Assemble(parsed[..1]) == Ok(([Pop], map[]));
  }

  /* ---------------- runs ---------------- */

  /** `push a`, `push b`, `add`, `print`. */
  function AddThenPrint(a: int32, b: int32): Program
  {
    [Push(Number(a)), Push(Number(b)), Add, Print]
  }

  /** The program prints the wrapped sum of its two operands. */
  lemma AddPrints(a: int32, b: int32, fuel: nat)
    requires 4 <= fuel
    ensures Exec(AddThenPrint(a, b), map[], Initial, fuel) == Execution(Halted, State(4, [], [Wrap(a + b)]), [0, 1, 2, 3])
  {
    var p: Program, l: LabelMap := AddThenPrint(a, b), map[];
    var s1 := State(1, [Number(a)], []);
    var s2 := State(2, [Number(a), Number(b)], []);
    var s3 := State(3, [Number(Wrap(a + b))], []);
    var s4 := State(4, [], [Wrap(a + b)]);
    assert Exec(p, l, s4, fuel - 4) == Execution(Halted, s4, []) by {
      ExecStop(p, l, s4, fuel - 4);
    }
    assert Exec(p, l, s3, fuel - 3) == Execution(Halted, s4, [3]) by {
      assert Step(p[3], l, s3) == Ok(s4) by { assert s3.stack[..0] == [] && [] + [Top(s3.stack)] == s4.out; }
      ExecUnfold(p, l, s3, fuel - 3, s4);
    }
    assert Exec(p, l, s2, fuel - 2) == Execution(Halted, s4, [2, 3]) by {
      assert Step(p[2], l, s2) == Ok(s3) by { assert s2.stack[..0] + [Number(Wrap(b + a))] == s3.stack; }
      ExecUnfold(p, l, s2, fuel - 2, s3);
    }
    assert Exec(p, l, s1, fuel - 1) == Execution(Halted, s4, [1, 2, 3]) by {
      assert Step(p[1], l, s1) == Ok(s2) by { assert s1.stack + [Number(b)] == s2.stack; }
      ExecUnfold(p, l, s1, fuel - 1, s2);
    }
    assert Step(p[0], l, Initial) == Ok(s1) by { assert [] + [Number(a)] == s1.stack; }
    ExecUnfold(p, l, Initial, fuel, s1);
  }

  /** The same program as text: it loads with no labels, and running it
      prints the wrapped sum. */
  lemma AddPrintsText(a: int32, b: int32, fuel: nat)
    requires 4 <= fuel
    ensures Interpretation(Unparse(AddThenPrint(a, b)), fuel) == Ran(Halted, [Wrap(a + b)])
  {
    LoadUnparse(AddThenPrint(a, b));
    AddPrints(a, b, fuel);
  }

  /** `push 10`, `push 3`, `sub`, `print`: the deeper value minus the top one. */
  const SubThenPrint: Program := [Push(Number(10)), Push(Number(3)), Sub, Print]

  lemma SubOrder(fuel: nat)
    requires 4 <= fuel
    ensures Exec(SubThenPrint, map[], Initial, fuel) == Execution(Halted, State(4, [], [7]), [0, 1, 2, 3])
  {
    var p: Program, l: LabelMap := SubThenPrint, map[];
    var s1 := State(1, [Number(10)], []);
    var s2 := State(2, [Number(10), Number(3)], []);
    var s3 := State(3, [Number(7)], []);
    var s4 := State(4, [], [7]);
    assert Exec(p, l, s4, fuel - 4) == Execution(Halted, s4, []) by {
      ExecStop(p, l, s4, fuel - 4);
    }
    assert Exec(p, l, s3, fuel - 3) == Execution(Halted, s4, [3]) by {
      assert Step(p[3], l, s3) == Ok(s4) by { assert s3.stack[..0] == [] && [] + [Top(s3.stack)] == [7]; }
      ExecUnfold(p, l, s3, fuel - 3, s4);
    }
    assert Exec(p, l, s2, fuel - 2) == Execution(Halted, s4, [2, 3]) by {
      assert Step(p[2], l, s2) == Ok(s3) by { assert s2.stack[..0] + [Number(Wrap(10 - 3))] == s3.stack; }
      ExecUnfold(p, l, s2, fuel - 2, s3);
    }
    assert Exec(p, l, s1, fuel - 1) == Execution(Halted, s4, [1, 2, 3]) by {
      assert Step(p[1], l, s1) == Ok(s2) by { assert s1.stack + [Number(3)] == s2.stack; }
      ExecUnfold(p, l, s1, fuel - 1, s2);
    }
    assert Step(p[0], l, Initial) == Ok(s1) by { assert [] + [Number(10)] == s1.stack; }
    ExecUnfold(p, l, Initial, fuel, s1);
  }

  /** `push 5`, `dup`, `add`, `print`. */
  const DupThenAdd: Program := [Push(Number(5)), Dup, Add, Print]

  lemma DupAdds(fuel: nat)
    requires 4 <= fuel
    ensures Exec(DupThenAdd, map[], Initial, fuel) == Execution(Halted, State(4, [], [10]), [0, 1, 2, 3])
  {
    var p: Program, l: LabelMap := DupThenAdd, map[];
    var s1 := State(1, [Number(5)], []);
    var s2 := State(2, [Number(5), Number(5)], []);
    var s3 := State(3, [Number(10)], []);
    var s4 := State(4, [], [10]);
    assert Exec(p, l, s4, fuel - 4) == Execution(Halted, s4, []) by {
      ExecStop(p, l, s4, fuel - 4);
    }
    assert Exec(p, l, s3, fuel - 3) == Execution(Halted, s4, [3]) by {
      assert Step(p[3], l, s3) == Ok(s4) by { assert s3.stack[..0] == [] && [] + [Top(s3.stack)] == [10]; }
      ExecUnfold(p, l, s3, fuel - 3, s4);
    }
    assert Exec(p, l, s2, fuel - 2) == Execution(Halted, s4, [2, 3]) by {
      assert Step(p[2], l, s2) == Ok(s3) by { assert s2.stack[..0] + [Number(Wrap(5 + 5))] == s3.stack; }
      ExecUnfold(p, l, s2, fuel - 2, s3);
    }
    assert Exec(p, l, s1, fuel - 1) == Execution(Halted, s4, [1, 2, 3]) by {
      assert Step(p[1], l, s1) == Ok(s2) by { assert s1.stack[..0] + [s1.stack[0], s1.stack[0]] == s2.stack; }
      ExecUnfold(p, l, s1, fuel - 1, s2);
    }
    assert Step(p[0], l, Initial) == Ok(s1) by { assert [] + [Number(5)] == s1.stack; }
    ExecUnfold(p, l, Initial, fuel, s1);
  }

  /** `push 0`, `je 0 skip`, `push 99`, `pop`, `skip:`, `push 1`, `print`:
      the label defined later in the text is bound to address 4, and the
      jump passes over two instructions. */
  const SkipAhead: Program :=
    [Push(Number(0)), JumpEqual(0, "skip"), Push(Number(99)), Pop, Push(Number(1)), Print]

  lemma ForwardJump(fuel: nat)
    requires 4 <= fuel
    ensures Exec(SkipAhead, map["skip" := 4], Initial, fuel) == Execution(Halted, State(6, [], [1]), [0, 1, 4, 5])
  {
    var p: Program, l: LabelMap := SkipAhead, map["skip" := 4];
    var s1 := State(1, [Number(0)], []);
    var s2 := State(4, [], []);
    var s3 := State(5, [Number(1)], []);
    var s4 := State(6, [], [1]);
    assert Exec(p, l, s4, fuel - 4) == Execution(Halted, s4, []) by {
      ExecStop(p, l, s4, fuel - 4);
    }
    assert Exec(p, l, s3, fuel - 3) == Execution(Halted, s4, [5]) by {
      assert Step(p[5], l, s3) == Ok(s4) by { assert s3.stack[..0] == [] && [] + [Top(s3.stack)] == [1]; }
      ExecUnfold(p, l, s3, fuel - 3, s4);
    }
    assert Exec(p, l, s2, fuel - 2) == Execution(Halted, s4, [4, 5]) by {
      assert Step(p[4], l, s2) == Ok(s3) by { assert [] + [Number(1)] == s3.stack; }
      ExecUnfold(p, l, s2, fuel - 2, s3);
    }
    assert Exec(p, l, s1, fuel - 1) == Execution(Halted, s4, [1, 4, 5]) by {
      assert Step(p[1], l, s1) == Ok(s2) by { assert s1.stack[..0] == []; }
      ExecUnfold(p, l, s1, fuel - 1, s2);
    }
    assert Step(p[0], l, Initial) == Ok(s1) by { assert [] + [Number(0)] == s1.stack; }
    ExecUnfold(p, l, Initial, fuel, s1);
  }

  /** `pop` on an empty stack. */
  lemma PopEmpty(fuel: nat)
    requires 1 <= fuel
    ensures Exec([Pop], map[], Initial, fuel) == Execution(Fault(StackUnderflow), Initial, [0])
  {
    ExecFault([Pop], map[], Initial, fuel, StackUnderflow);
  }

  /** The label of a conditional jump is looked up only when the branch is
      taken: `jne 0 nowhere` falls through on 0 and fails on 1. */
  lemma UndefinedLabelOnlyWhenTaken(fuel: nat)
    requires 2 <= fuel
    ensures Exec([Push(Number(0)), JumpNotEqual(0, "nowhere")], map[], Initial, fuel)
      == Execution(Halted, State(2, [], []), [0, 1])
    ensures Exec([Push(Number(1)), JumpNotEqual(0, "nowhere")], map[], Initial, fuel)
      == Execution(Fault(UndefinedLabel), State(1, [Number(1)], []), [0, 1])
  {
    var l: LabelMap := map[];
    var zero: Program := [Push(Number(0)), JumpNotEqual(0, "nowhere")];
    var z1 := State(1, [Number(0)], []);
    var z2 := State(2, [], []);
    assert Step(zero[0], l, Initial) == Ok(z1) by { assert [] + [Number(0)] == z1.stack; }
    assert Step(zero[1], l, z1) == Ok(z2) by { assert z1.stack[..0] == []; }
    ExecUnfold(zero, l, Initial, fuel, z1);
    ExecUnfold(zero, l, z1, fuel - 1, z2);
    ExecStop(zero, l, z2, fuel - 2);
    var one: Program := [Push(Number(1)), JumpNotEqual(0, "nowhere")];
    var o1 := State(1, [Number(1)], []);
    assert Step(one[0], l, Initial) == Ok(o1) by { assert [] + [Number(1)] == o1.stack; }
    ExecUnfold(one, l, Initial, fuel, o1);
    ExecFault(one, l, o1, fuel - 1, UndefinedLabel);
  }

  /** A countdown: `push 3`, then at `loop:` subtract one, print, and jump
      back while the value is not 0. */
  const Countdown: Program :=
    [Push(Number(3)), Push(Number(1)), Sub, Dup, Print, Dup, JumpNotEqual(0, "loop")]

  const CountdownLabels: LabelMap := map["loop" := 1]

  /** The countdown program as parsed lines: `loop:` follows `push 3`, so
      it is bound to 1, and the backward jump at the end names it. */
  const CountdownLines: seq<Result<ParsedLine>> :=
    [Ok(Instr(Push(Number(3)))), Ok(Label("loop")), Ok(Instr(Push(Number(1)))), Ok(Instr(Sub)),
     Ok(Instr(Dup)), Ok(Instr(Print)), Ok(Instr(Dup)), Ok(Instr(JumpNotEqual(0, "loop")))]

  lemma CountdownLoads()
    ensures Assemble(CountdownLines) == Ok((Countdown, CountdownLabels))
  {
    var parsed := CountdownLines;
    assert Assemble(parsed[..2]) == Ok(([Push(Number(3))], map["loop" := 1])) by {
      assert parsed[..1] == [Ok(Instr(Push(Number(3))))];
      assert parsed[..1][..0] == [];
      assert [] + [Push(Number(3))] == [Push(Number(3))];
      AssembleSnoc(parsed, 1);
    }
    var rest := Countdown[1..];
    assert Assemble(parsed[..8]) == Ok(([Push(Number(3))] + rest, map["loop" := 1])) by {
      AssembleSnoc(parsed, 2);
      AssembleSnoc(parsed, 3);
      AssembleSnoc(parsed, 4);
      AssembleSnoc(parsed, 5);
      AssembleSnoc(parsed, 6);
      AssembleSnoc(parsed, 7);
      assert [Push(Number(3))] + rest == [Push(Number(3))] + [rest[0]] + [rest[1]] + [rest[2]] + [rest[3]] + [rest[4]] + [rest[5]];
    }
    assert parsed[..8] == parsed;
    assert [Push(Number(3))] + rest == Countdown;
  }

  function Below(k: nat): seq<int32>
    requires k <= I32_MAX
  {
    if k == 0 then [] else [k - 1] + Below(k - 1)
  }

  /** The first half of a trip round the loop: `push 1`, `sub` and `dup`
      leave two copies of k - 1. */
  lemma CountdownDecrement(k: int32, out: seq<int32>, fuel: nat)
    requires 1 <= k && 3 <= fuel
    ensures Exec(Countdown, CountdownLabels, State(1, [Number(k)], out), fuel) ==
      var r := Exec(Countdown, CountdownLabels, State(4, [Number(k - 1), Number(k - 1)], out), fuel - 3);
      Execution(r.status, r.final, [1, 2, 3] + r.trace)
  {
    var p, l := Countdown, CountdownLabels;
    var s0 := State(1, [Number(k)], out);
    var s1 := State(2, [Number(k), Number(1)], out);
    var s2 := State(3, [Number(k - 1)], out);
    var s3 := State(4, [Number(k - 1), Number(k - 1)], out);
    assert Step(p[1], l, s0) == Ok(s1) by {
      assert [Number(k)] + [Number(1)] == [Number(k), Number(1)];
    }
    assert Step(p[2], l, s1) == Ok(s2) by {
      assert s1.stack[..0] + [Number(Wrap(k - 1))] == [Number(k - 1)];
    }
    assert Step(p[3], l, s2) == Ok(s3) by {
      assert s2.stack[..0] + [s2.stack[0], s2.stack[0]] == s3.stack;
    }
    ExecUnfold(p, l, s0, fuel, s1);
    ExecUnfold(p, l, s1, fuel - 1, s2);
    ExecUnfold(p, l, s2, fuel - 2, s3);
  }

  /** The second half: `print`, `dup` and `jne 0 loop` print the value and
      jump back unless it is 0, in which case the run falls off the end. */
  lemma CountdownPrintJump(v: int32, out: seq<int32>, fuel: nat)
    requires 3 <= fuel
    ensures Exec(Countdown, CountdownLabels, State(4, [Number(v), Number(v)], out), fuel) ==
      var r := Exec(Countdown, CountdownLabels,
        State(if v != 0 then 1 else 7, [Number(v)], out + [v]), fuel - 3);
      Execution(r.status, r.final, [4, 5, 6] + r.trace)
  {
    var p, l := Countdown, CountdownLabels;
    var s3 := State(4, [Number(v), Number(v)], out);
    var s4 := State(5, [Number(v)], out + [v]);
    var s5 := State(6, [Number(v), Number(v)], out + [v]);
    var s6 := State(if v != 0 then 1 else 7, [Number(v)], out + [v]);
    assert Step(p[4], l, s3) == Ok(s4) by {
      assert s3.stack[..1] == s4.stack;
    }
    assert Step(p[5], l, s4) == Ok(s5) by {
      assert s4.stack[..0] + [s4.stack[0], s4.stack[0]] == s5.stack;
    }
    assert Step(p[6], l, s5) == Ok(s6) by {
      assert s5.stack[..1] == s6.stack;
    }
    ExecUnfold(p, l, s3, fuel, s4);
    ExecUnfold(p, l, s4, fuel - 1, s5);
    ExecUnfold(p, l, s5, fuel - 2, s6);
  }

  /** From `loop:` with counter `k`, the program prints k-1 down to 0 and
      halts, using six steps per value printed. */
  lemma {:induction false} CountdownLoop(k: int32, out: seq<int32>)
    requires 1 <= k
    ensures var r := Exec(Countdown, CountdownLabels, State(1, [Number(k)], out), 6 * k);
      r.status == Halted && r.final.out == out + Below(k)
    decreases k
  {
    CountdownDecrement(k, out, 6 * k);
    CountdownPrintJump(k - 1, out, 6 * k - 3);
    if k - 1 != 0 {
      CountdownLoop(k - 1, out + [k - 1]);
    } else {
      ExecStop(Countdown, CountdownLabels, State(7, [Number(0)], out + [0]), 0);
    }
  }

  lemma CountdownPrints()
    ensures var r := Exec(Countdown, CountdownLabels, Initial, 19);
      r.status == Halted && r.final.out == [2, 1, 0]
  {
    assert Step(Countdown[0], CountdownLabels, Initial) == Ok(State(1, [Number(3)], [])) by {
      assert [] + [Number(3)] == [Number(3)];
    }
    ExecUnfold(Countdown, CountdownLabels, Initial, 19, State(1, [Number(3)], []));
    CountdownLoop(3, []);
  }
}
