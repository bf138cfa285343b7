/** What the loader promises: the shape of an accepted line, the error each
    malformed line gets, the inverse of line parsing, and how the label table
    relates to the text. */
module LoaderFacts {
  import opened Base
  import opened Text
  import opened Numbers
  import opened Syntax
  import opened Loader

  /* ---------------- one line ---------------- */

  /** No opcode word ends in `:`, so a label directive can never be taken for
      an instruction. */
  lemma ColonWordIsNotOpcode(w: string)
    requires EndsWithColon(w)
    ensures !IsOpcode(w)
  {
    var c := w[|w| - 1];
    assert c == ':';
  }

  /** A line is a label directive `name:` exactly when its only token is
      `name` followed by a colon; the directive binds `name`, the token minus
      its trailing colon. */
  lemma ParseLabel(toks: seq<string>, name: string)
    requires |toks| >= 1
    ensures ParseTokens(toks) == Ok(Label(name)) <==> toks == [name + ":"]
  {
    if toks == [name + ":"] {
      var w := name + ":";
      assert EndsWithColon(w);
      ColonWordIsNotOpcode(w);
      assert w[..|w| - 1] == name;
    }
    if ParseTokens(toks) == Ok(Label(name)) {
      var w := toks[0];
      assert EndsWithColon(w) && |toks| == 1;
      assert w == w[..|w| - 1] + ":";
    }
  }

  /** An accepted instruction line has exactly its opcode's number of tokens:
      the opcode word, then each operand. Integer operands are read by
      `parse_number` and a jump target is the third token, kept verbatim. */
  lemma ParseInstr(toks: seq<string>, i: Instr)
    requires |toks| >= 1 && ParseTokens(toks) == Ok(Instr(i))
    ensures toks[0] == OpName(i)
    ensures |toks| == 1 + Arity(OpName(i))
    ensures i.Push? ==> ParseI32(toks[1]) == Some(i.val.n)
    ensures IsJump(i) ==> ParseI32(toks[1]) == Some(i.cmp) && toks[2] == i.target
  {
  }

  /** "unknown opcode": the first token is neither an opcode word nor ends in `:`. */
  lemma ParseUnknownOpcode(toks: seq<string>)
    requires |toks| >= 1
    ensures ParseTokens(toks) == Err(UnknownOpcode) <==> !IsOpcode(toks[0]) && !EndsWithColon(toks[0])
  {
  }

  /** "unparsed number": an opcode that takes an integer is followed by a
      token `parse_number` rejects. This is reported before any arity check
      on the tokens after it. */
  lemma ParseUnparsedNumber(toks: seq<string>)
    requires |toks| >= 1
    ensures ParseTokens(toks) == Err(UnparsedNumber) <==>
      Arity(toks[0]) > 0 && |toks| >= 2 && ParseI32(toks[1]).None?
  {
  }

  /** "too few arguments": the line ran out of tokens before the opcode's
      operands were all read. */
  lemma ParseTooFew(toks: seq<string>)
    requires |toks| >= 1
    ensures ParseTokens(toks) == Err(TooFewArguments) <==>
      IsOpcode(toks[0]) && |toks| < 1 + Arity(toks[0]) && (|toks| >= 2 ==> ParseI32(toks[1]).Some?)
  {
  }

  /** "too many operands": an opcode or label directive that was otherwise
      accepted is followed by more tokens than it takes. */
  lemma ParseTooMany(toks: seq<string>)
    requires |toks| >= 1
    ensures ParseTokens(toks) == Err(TooManyOperands) <==>
      (IsOpcode(toks[0]) || EndsWithColon(toks[0])) && |toks| > 1 + Arity(toks[0])
      && (Arity(toks[0]) > 0 ==> ParseI32(toks[1]).Some?)
  {
    if EndsWithColon(toks[0]) {
      ColonWordIsNotOpcode(toks[0]);
    }
  }

  /** Line parsing fails only with the four load-time errors. */
  lemma ParseErrorKinds(toks: seq<string>)
    requires |toks| >= 1
    ensures ParseTokens(toks).Err? ==>
      ParseTokens(toks).error in {UnknownOpcode, UnparsedNumber, TooFewArguments, TooManyOperands}
  {
  }

  /* ---------------- the inverse of line parsing ---------------- */

  /** A jump target that survives tokenisation: one non-empty token. */
  predicate ValidTarget(t: string)
  {
    |t| > 0 && NoWhitespace(t)
  }

  /** The words of an instruction's source line. */
  function Words(i: Instr): seq<string>
  {
    match i
    case Push(Number(v)) => ["push", Show(v)]
    case JumpEqual(c, t) => ["je", Show(c), t]
    case JumpNotEqual(c, t) => ["jne", Show(c), t]
    case _ => [OpName(i)]
  }

  /** The canonical source line of an instruction. */
  function Render(i: Instr): string
  {
    Join(Words(i))
  }

  lemma ShowNoWhitespace(v: int32)
    ensures NoWhitespace(Show(v))
  {
    var s := Show(v);
    forall k | 0 <= k < |s| ensures !IsWhitespace(s[k]) {
      if v < 0 {
        assert k == 0 || s[k] == Digits(-(v as int))[k - 1];
      }
    }
  }

  /** Every word of a rendered instruction is a whole token. */
  lemma WordsAreTokens(i: Instr)
    requires IsJump(i) ==> ValidTarget(i.target)
    ensures forall k :: 0 <= k < |Words(i)| ==> |Words(i)[k]| > 0 && NoWhitespace(Words(i)[k])
  {
    match i {
      case Push(Number(v)) => ShowNoWhitespace(v);
      case JumpEqual(c, _) => ShowNoWhitespace(c);
      case JumpNotEqual(c, _) => ShowNoWhitespace(c);
      case _ =>
    }
  }

  /** Reading an instruction's words gives the instruction back. */
  lemma ParseWords(i: Instr)
    ensures ParseTokens(Words(i)) == Ok(Instr(i))
  {
    match i {
      case Push(Number(v)) =>
        ParseShow(v);
        ParseOperandWords(Words(i), i);
      case JumpEqual(c, _) =>
        ParseShow(c);
        ParseOperandWords(Words(i), i);
      case JumpNotEqual(c, _) =>
        ParseShow(c);
        ParseOperandWords(Words(i), i);
      case _ =>
    }
  }

  /** The words of an instruction with operands, once its integer reads back. */
  lemma ParseOperandWords(toks: seq<string>, i: Instr)
    requires i.Push? || IsJump(i)
    requires toks == Words(i)
    requires ParseI32(toks[1]) == Some(if i.Push? then i.val.n else i.cmp)
    ensures ParseTokens(toks) == Ok(Instr(i))
  {
  }

  /** Writing an instruction out and parsing the line gives the instruction back. */
  lemma ParseRender(i: Instr)
    requires IsJump(i) ==> ValidTarget(i.target)
    ensures ParseLine(Render(i)) == Ok(Instr(i))
  {
    WordsAreTokens(i);
    TokensOfWords(Words(i));
    ParseWords(i);
  }

  /** A label directive written out for a whitespace-free name (possibly empty)
      parses back to that label. */
  lemma ParseLabelDirective(name: string)
    requires NoWhitespace(name)
    ensures ParseLine(name + ":") == Ok(Label(name))
  {
    var w := name + ":";
    assert Join([w]) == w;
    TokensOfWords([w]);
    ParseLabel([w], name);
  }

  /** A blank line, or one of whitespace only, has the empty opcode, so it
      is reported as "unknown opcode". */
  lemma ParseBlankLine(line: string)
    requires forall i :: 0 <= i < |line| ==> IsWhitespace(line[i])
    ensures ParseLine(line) == Err(UnknownOpcode)
  {
    TrimStartBlank(line);
    assert Trim(line) == "";
    assert Tokens(line) == [""];
    ParseUnknownOpcode([""]);
  }

  /** A label directive followed by an operand on the same line, such as
      `x: y`, is "too many operands". */
  lemma ParseLabelWithOperand(name: string, w: string)
    requires NoWhitespace(name) && NoWhitespace(w) && |w| > 0
    ensures ParseLine(Join([name + ":", w])) == Err(TooManyOperands)
  {
    var d := name + ":";
    TokensOfWords([d, w]);
    ColonWordIsNotOpcode(d);
    ParseTooMany([d, w]);
  }

  /** A jump with its comparison value but no target, such as `je 1`, is
      "too few arguments": the value is read before the target is missed. */
  lemma ParseJumpWithoutTarget(op: string, v: int32)
    requires op == "je" || op == "jne"
    ensures ParseLine(Join([op, Show(v)])) == Err(TooFewArguments)
  {
    var toks := [op, Show(v)];
    assert NoWhitespace(op);
    ShowNoWhitespace(v);
    TokensOfWords(toks);
    ParseShow(v);
    JumpMissingTarget(toks);
  }

  /** A jump whose operand word is not an i32, such as `je one`, is
      "unparsed number", whatever follows it. */
  lemma ParseJumpBadOperand(op: string, w: string, rest: seq<string>)
    requires op == "je" || op == "jne"
    requires |w| > 0 && NoWhitespace(w) && ParseI32(w).None?
    requires forall k :: 0 <= k < |rest| ==> NoWhitespace(rest[k])
    requires |rest| > 0 ==> |rest[|rest| - 1]| > 0
    ensures ParseLine(Join([op, w] + rest)) == Err(UnparsedNumber)
  {
    var toks := [op, w] + rest;
    assert Tokens(Join(toks)) == toks by {
      assert NoWhitespace(op);
      forall k | 2 <= k < |toks| ensures NoWhitespace(toks[k]) {
        assert toks[k] == rest[k - 2];
      }
      TokensOfWords(toks);
    }
    JumpBadOperand(toks);
  }

  lemma JumpBadOperand(toks: seq<string>)
    requires |toks| >= 2 && (toks[0] == "je" || toks[0] == "jne") && ParseI32(toks[1]).None?
    ensures ParseTokens(toks) == Err(UnparsedNumber)
  {
  }

  lemma JumpMissingTarget(toks: seq<string>)
    requires |toks| == 2 && (toks[0] == "je" || toks[0] == "jne") && ParseI32(toks[1]).Some?
    ensures ParseTokens(toks) == Err(TooFewArguments)
  {
  }

  /* ---------------- the whole text ---------------- */

  /** The parsed lines of a prefix of the text are a prefix of its parsed lines. */
  lemma ParsedPrefix(lines: seq<string>, n: nat)
    requires n <= |lines|
    ensures ParsedLines(lines[..n]) == ParsedLines(lines)[..n]
  {
  }

  /** Assembling one more parsed line on top of a prefix. */
  lemma AssembleSnoc(parsed: seq<Result<ParsedLine>>, n: nat)
    requires n < |parsed|
    ensures Assemble(parsed[..n + 1]) ==
      match Assemble(parsed[..n]) case Err(e) => Err(e) case Ok(loaded) => AddLine(loaded, parsed[n])
  {
    assert parsed[..n + 1][..n] == parsed[..n];
  }

  /** Loading is incremental: whatever a prefix of the text loads into is
      kept, unchanged, in what the whole text loads into. */
  lemma {:induction false} AssemblePrefix(parsed: seq<Result<ParsedLine>>, n: nat)
    requires n <= |parsed| && Assemble(parsed).Ok?
    ensures Assemble(parsed[..n]).Ok?
    ensures Assemble(parsed[..n]).value.0 <= Assemble(parsed).value.0
    ensures forall name :: name in Assemble(parsed[..n]).value.1 ==>
      name in Assemble(parsed).value.1 && Assemble(parsed).value.1[name] == Assemble(parsed[..n]).value.1[name]
  {
    if n == |parsed| {
      assert parsed[..n] == parsed;
    } else {
      var m := |parsed| - 1;
      assert Assemble(parsed[..m]).Ok?;
      assert parsed[..m][..n] == parsed[..n];
      AssemblePrefix(parsed[..m], n);
    }
  }

  /** A label directive `name:` at line `i` binds `name` to the number of
      instructions emitted before that line, and no earlier line bound it. */
  lemma LabelBinding(parsed: seq<Result<ParsedLine>>, i: nat, name: string)
    requires i < |parsed| && Assemble(parsed).Ok?
    requires parsed[i] == Ok(Label(name))
    ensures Assemble(parsed[..i]).Ok? && name !in Assemble(parsed[..i]).value.1
    ensures name in Assemble(parsed).value.1
    ensures Assemble(parsed).value.1[name] == |Assemble(parsed[..i]).value.0|
  {
    AssemblePrefix(parsed, i + 1);
    AssembleSnoc(parsed, i);
  }

  /** The instruction at line `i` is stored at the address equal to the
      number of instructions emitted before that line. */
  lemma InstrPlacement(parsed: seq<Result<ParsedLine>>, i: nat, instr: Instr)
    requires i < |parsed| && Assemble(parsed).Ok?
    requires parsed[i] == Ok(Instr(instr))
    ensures Assemble(parsed[..i]).Ok?
    ensures |Assemble(parsed[..i]).value.0| < |Assemble(parsed).value.0|
    ensures Assemble(parsed).value.0[|Assemble(parsed[..i]).value.0|] == instr
  {
    AssemblePrefix(parsed, i + 1);
    AssembleSnoc(parsed, i);
    var p := Assemble(parsed[..i + 1]).value.0;
    assert p[|p| - 1] == instr;
  }

  predicate IsLabelLine(line: Result<ParsedLine>)
  {
    line.Ok? && line.value.Label?
  }

  /** Every line is well formed and no two label directives name the same label. */
  predicate Loadable(parsed: seq<Result<ParsedLine>>)
  {
    (forall i :: 0 <= i < |parsed| ==> parsed[i].Ok?)
    && (forall i, j :: 0 <= i < j < |parsed| && IsLabelLine(parsed[i]) ==> parsed[j] != parsed[i])
  }

  /** The table binds exactly the names of the text's label directives, and
      each line adds either one instruction or one binding. */
  lemma {:induction false} AssembledLabels(parsed: seq<Result<ParsedLine>>)
    requires Assemble(parsed).Ok?
    ensures forall name :: name in Assemble(parsed).value.1 <==>
      exists i :: 0 <= i < |parsed| && parsed[i] == Ok(Label(name))
    ensures |Assemble(parsed).value.0| + |Assemble(parsed).value.1| == |parsed|
  {
    if |parsed| > 0 {
      var m := |parsed| - 1;
      var init := parsed[..m];
      assert Assemble(init).Ok?;
      AssembledLabels(init);
      forall name | name in Assemble(parsed).value.1
        ensures exists i :: 0 <= i < |parsed| && parsed[i] == Ok(Label(name))
      {
        if name in Assemble(init).value.1 {
          var i :| 0 <= i < |init| && init[i] == Ok(Label(name));
          assert parsed[i] == init[i];
        } else {
          assert parsed[m] == Ok(Label(name));
        }
      }
      forall name | exists i :: 0 <= i < |parsed| && parsed[i] == Ok(Label(name))
        ensures name in Assemble(parsed).value.1
      {
        var i :| 0 <= i < |parsed| && parsed[i] == Ok(Label(name));
        LabelBinding(parsed, i, name);
      }
    }
  }

  /** The text loads exactly when every line parses and no label is defined
      twice. */
  lemma {:induction false} AssembleOkIff(parsed: seq<Result<ParsedLine>>)
    ensures Assemble(parsed).Ok? <==> Loadable(parsed)
  {
    if |parsed| > 0 {
      var m := |parsed| - 1;
      var init := parsed[..m];
      AssembleOkIff(init);
      assert forall i :: 0 <= i < m ==> init[i] == parsed[i];
      if Assemble(parsed).Ok? {
        assert Assemble(init).Ok?;
        forall i, j | 0 <= i < j < |parsed| && IsLabelLine(parsed[i])
          ensures parsed[j] != parsed[i]
        {
          if j == m && parsed[j] == parsed[i] {
            assert init[i] == parsed[i];
            AssembledLabels(init);
            LabelBinding(parsed, j, parsed[j].value.name);
          }
        }
      }
      if Loadable(parsed) {
        assert Loadable(init);
        if IsLabelLine(parsed[m]) {
          AssembledLabels(init);
        }
      }
    }
  }

  /** When every line parses, the only way the load can fail is a label
      defined twice. */
  lemma {:induction false} AssembleParsedErrors(parsed: seq<Result<ParsedLine>>)
    requires forall k :: 0 <= k < |parsed| ==> parsed[k].Ok?
    ensures Assemble(parsed).Err? ==> Assemble(parsed).error == DuplicateLabel
  {
    if |parsed| > 0 {
      var m := |parsed| - 1;
      assert forall k :: 0 <= k < m ==> parsed[..m][k] == parsed[k];
      AssembleParsedErrors(parsed[..m]);
    }
  }

  /** A label directive repeated at line `j`, after the same directive at
      line `i`, fails the whole load with "duplicate label", provided every
      line up to `j` parses (otherwise an earlier line's error is met first). */
  lemma DuplicateLabelError(parsed: seq<Result<ParsedLine>>, i: nat, j: nat, name: string)
    requires i < j < |parsed|
    requires parsed[i] == Ok(Label(name)) && parsed[j] == Ok(Label(name))
    requires forall k :: 0 <= k <= j ==> parsed[k].Ok?
    ensures Assemble(parsed) == Err(DuplicateLabel)
  {
    var prefix := parsed[..j + 1];
    assert prefix[i] == parsed[i] && prefix[j] == parsed[j];
    AssembleOkIff(prefix);
    assert !Loadable(prefix);
    AssembleParsedErrors(prefix);
    LoadStopsAtError(parsed, j + 1);
  }

  /** A program written out one instruction per line. */
  function Unparse(program: Program): seq<string>
  {
    seq(|program|, k requires 0 <= k < |program| => Render(program[k]))
  }

  /** Parsed lines that are all instructions assemble into exactly those
      instructions and no labels. */
  lemma {:induction false} AssembleInstrs(program: Program)
    ensures Assemble(seq(|program|, k requires 0 <= k < |program| => Ok(Instr(program[k])))) == Ok((program, map[]))
  {
    var parsed := seq(|program|, k requires 0 <= k < |program| => Ok(Instr(program[k])));
    if |program| > 0 {
      var m := |program| - 1;
      assert parsed[..m] == seq(m, k requires 0 <= k < m => Ok(Instr(program[..m][k])));
      AssembleInstrs(program[..m]);
      assert program[..m] + [program[m]] == program;
    }
  }

  /** Writing a program out and loading the text gives the program back, with
      an empty label table. */
  lemma LoadUnparse(program: Program)
    requires forall k :: 0 <= k < |program| && IsJump(program[k]) ==> ValidTarget(program[k].target)
    ensures Load(Unparse(program)) == Ok((program, map[]))
  {
    forall k | 0 <= k < |program| ensures ParseLine(Unparse(program)[k]) == Ok(Instr(program[k])) {
      ParseRender(program[k]);
    }
    assert ParsedLines(Unparse(program)) == seq(|program|, k requires 0 <= k < |program| => Ok(Instr(program[k])));
    AssembleInstrs(program);
  }
}
