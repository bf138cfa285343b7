# A verified model of simple-rust-stack-interp

`simple-rust-stack-interp` is a small stack-machine interpreter. Its program text has one instruction or label directive per line:

- `push n`, `pop`, `add`, `sub`, `dup`, `print`;
- `je n label` and `jne n label`;
- `label:`.

The interpreter loads the text into an instruction vector and a label table. It then runs the program. Before each instruction it notifies a tracing control point. Every failure goes through `fatal`, which prints a message and exits.

This project models the interpreter core, `interp/src/lib.rs`, in Dafny and proves what it does.

| file | module | what it holds |
|---|---|---|
| `base.dfy` | `Base` | `int32` and its two's-complement `Wrap`, the `Error` kinds with their `fatal` messages, `Option` and `Result` |
| `numbers.dfy` | `Numbers` | `parse_number`, i.e. Rust's `i32` parser `ParseI32`, and the decimal text `Show` of a printed value |
| `text.dfy` | `Text` | Rust's `trim` (Unicode whitespace), `split(" ")`, and the token list of a line |
| `syntax.dfy` | `Syntax` | `Instr`, `ParsedLine`, `StackVal`, the program and the label table |
| `loader.dfy` | `Loader` | `parse_line` as `ParseLine`/`ParseTokens`; `parse` as the fold `Load`, and as the loop method `Parse` proved equal to it |
| `loader_facts.dfy` | `LoaderFacts` | the error each malformed line gets, arity, the line round trip, and how labels bind to addresses |
| `semantics.dfy` | `Semantics` | one dispatch arm as `Step`, and a bounded run as `Exec` (with `Continue`/`Resume`) |
| `semantics_facts.dfy` | `SemanticsFacts` | stack discipline, control flow, and the shape and composition of runs |
| `engine.dfy` | `Engine` | the mutable `Stack` and `Interp` classes, the `run` loop proved against `Exec`, and load-then-run |
| `examples.dfy` | `Examples` | concrete lines, texts and programs, including a loop with a backward jump |

**Modelling choices.**

- Every call to `fatal` becomes an `Error` value carried by `Result`. `Base.Message` gives the exact line `fatal` prints.
- The input file is a sequence of lines.
- `print` appends the popped value to an output sequence. `Numbers.Show` is its decimal text, and `Numbers.ParseShow` proves it reads back.
- `mt.control_point(loc)` appends the current address to a ghost log, `Interp.trace`. Each instruction's `Location` is taken to be its address.
- `add` and `sub` wrap to 32 bits, which is the release-build behaviour of `i32` `+` and `-`.
- The `run` loop may not terminate, so it is given a number of steps (`fuel`). A run that uses them all up ends as `OutOfFuel`.

## Model

| member | source | states |
|---|---|---|
| Base.Wrap | interp/src/lib.rs:136 | the pushed sum or difference is the exact result reduced modulo 2^32 into the i32 range, and is the exact result whenever that fits |
| Base.Message | interp/src/lib.rs:242-245 | the line `fatal` prints for each error: `FATAL: ` followed by the text the source passes at the failing site |
| Base.MessageNamesError | interp/src/lib.rs:242-245 | every diagnostic starts with `FATAL: `, and no two errors print the same diagnostic |
| Numbers.ParseI32 | interp/src/lib.rs:58-64 | an operand is accepted only if it is an optional sign followed by decimal digits |
| Numbers.ParseShow | interp/src/lib.rs:58-64 | the decimal text of any i32 value is read back by `parse_number` as that value |
| Numbers.DigitsValueOfDigits | interp/src/lib.rs:58-64 | the digits written for a natural number denote that number |
| Numbers.Show | interp/src/lib.rs:152 | a printed value has non-empty text |
| Text.Trim | interp/src/lib.rs:67 | a trimmed line neither starts nor ends with whitespace and is no longer than the line |
| Text.TrimOnlyEnds | interp/src/lib.rs:67 | trimming removes only whitespace at the two ends: the result is a slice of the line with only whitespace before and after it |
| Text.TrimStartBlank | interp/src/lib.rs:67 | a line of whitespace only trims to the empty string |
| Text.TrimStart | interp/src/lib.rs:67 | only a leading run of whitespace is removed, and what is left does not start with whitespace |
| Text.TrimEnd | interp/src/lib.rs:67 | only a trailing run of whitespace is removed, and what is left does not end with whitespace |
| Text.TrimFixed | interp/src/lib.rs:67 | a string with no whitespace at its ends is its own trim |
| Text.TrimIdempotent | interp/src/lib.rs:67-72 | trimming a token again, as `next_operand` does, changes nothing |
| Text.Split | interp/src/lib.rs:68 | splitting on a space gives at least one piece, and no piece contains a space |
| Text.JoinSplit | interp/src/lib.rs:68 | splitting loses nothing: the pieces rejoined with single spaces are the original line |
| Text.SplitWord | interp/src/lib.rs:68 | a line without a space splits into itself |
| Text.SplitCons | interp/src/lib.rs:68 | a space-free word followed by a space splits off as the first piece |
| Text.SplitJoin | interp/src/lib.rs:68 | space-free pieces joined with single spaces split back into the same pieces |
| Text.Tokens | interp/src/lib.rs:67-72 | every line, even an empty one, yields at least one token, so an opcode is always read |
| Text.TrimEach | interp/src/lib.rs:68 | the pieces come out in the same number and order, piece k being the trim of input piece k |
| Text.TrimEachFixed | interp/src/lib.rs:68 | pieces that are already trimmed come through unchanged |
| Text.TokensOfWords | interp/src/lib.rs:67-72 | whitespace-free words joined by single spaces, with a non-empty first and last word, give exactly those words as tokens, including the empty tokens that two spaces in a row leave |
| Text.JoinEnds | interp/src/lib.rs:67-68 | a joined line starts with its first word's first character and ends with its last word's last character |
| Loader.ParseLine | interp/src/lib.rs:66-116 | a line is trimmed, split on single spaces, each piece trimmed again, and the resulting tokens are read by `ParseTokens` |
| Loader.ParseTokens | interp/src/lib.rs:78-116 | the first token picks the opcode; `push` reads one i32 operand and `je`/`jne` an i32 and a target token; a first token ending in `:` is a label directive named by the rest of it; the first failure in token order is the one reported, and extra tokens are "too many operands" only once the line was otherwise accepted |
| Loader.Load | interp/src/lib.rs:34-56 | the result of `Interp::parse`: every line parsed, then the parsed lines assembled in order |
| Loader.Assemble | interp/src/lib.rs:45-54 | a left fold of `AddLine` over the parsed lines from an empty program and label table, ending at the first failure |
| Loader.AddLine | interp/src/lib.rs:46-52 | an instruction is appended to the program; a label is bound to the number of instructions so far, unless it is already bound, which is "duplicate label"; a line that failed to parse passes its error on |
| Loader.ParsedLines | interp/src/lib.rs:45-46 | each line of the text is parsed once, in order |
| Loader.LoadSnoc | interp/src/lib.rs:45-54 | loading one more line adds its instruction or label binding to what the lines before it loaded; once that fails, the whole text fails the same way |
| Loader.Parse | interp/src/lib.rs:34-56 | the loop over the lines returns exactly what the fold `Load` describes, including the first error met |
| Loader.LoadStopsAtError | interp/src/lib.rs:45-51 | once a prefix of the text fails to load, the whole text fails with that error, and later lines are never looked at |
| LoaderFacts.ColonWordIsNotOpcode | interp/src/lib.rs:79-104 | no opcode word ends in `:`, so a label directive is never taken for an instruction |
| LoaderFacts.ParseLabel | interp/src/lib.rs:99-114 | a line is the label directive `name` if and only if its only token is `name:` |
| LoaderFacts.ParseInstr | interp/src/lib.rs:78-98 | an accepted instruction line has its opcode word followed by exactly the opcode's number of operands; integer operands are the values `parse_number` reads, and a jump target is the third token kept verbatim |
| LoaderFacts.ParseUnknownOpcode | interp/src/lib.rs:99-107 | "unknown opcode" is reported if and only if the first token is not an opcode word and does not end in `:` |
| LoaderFacts.ParseUnparsedNumber | interp/src/lib.rs:85-97 | "unparsed number" is reported if and only if an opcode with an integer operand is followed by a token that is not an i32 |
| LoaderFacts.ParseTooFew | interp/src/lib.rs:71-76 | "too few arguments" is reported if and only if the tokens run out before the opcode's operands are all read, and the integer operand, when present, was valid |
| LoaderFacts.ParseTooMany | interp/src/lib.rs:112-114 | "too many operands" is reported if and only if an otherwise accepted opcode or label directive is followed by more tokens than it takes |
| LoaderFacts.ParseErrorKinds | interp/src/lib.rs:66-116 | a line fails only with one of the four parse errors |
| LoaderFacts.ShowNoWhitespace | interp/src/lib.rs:152 | the text of a printed value contains no whitespace, so it is a single token |
| LoaderFacts.WordsAreTokens | interp/src/lib.rs:66-72 | each word of an instruction written out, with a valid jump target, is a non-empty whitespace-free token |
| LoaderFacts.ParseWords | interp/src/lib.rs:79-98 | reading an instruction's own words gives the instruction back |
| LoaderFacts.ParseRender | interp/src/lib.rs:66-116 | writing out an instruction whose jump target, if it has one, is a non-empty whitespace-free word, and parsing that line, gives the instruction back |
| LoaderFacts.ParseLabelDirective | interp/src/lib.rs:99-104 | `name:` parses to the label `name`, for any whitespace-free name including the empty one |
| LoaderFacts.ParseBlankLine | interp/src/lib.rs:66-107 | an empty line, or one of whitespace only, has the empty opcode and is "unknown opcode" |
| LoaderFacts.ParseLabelWithOperand | interp/src/lib.rs:99-114 | a label directive `name:` followed on its line by an operand word is "too many operands" |
| LoaderFacts.ParseJumpWithoutTarget | interp/src/lib.rs:70-94 | `je v` or `jne v` with a valid value and no target is "too few arguments", for every i32 value `v` |
| LoaderFacts.ParseJumpBadOperand | interp/src/lib.rs:85-94 | `je` or `jne` followed by a word that is not an i32 is "unparsed number", whatever words follow it |
| LoaderFacts.ParsedPrefix | interp/src/lib.rs:45-46 | the parsed lines of a prefix of the text are a prefix of its parsed lines |
| LoaderFacts.AssembleSnoc | interp/src/lib.rs:45-54 | one more parsed line appends an instruction, binds a label or fails, on top of the prefix |
| LoaderFacts.AssemblePrefix | interp/src/lib.rs:45-54 | what a prefix loads into is kept unchanged in what the whole text loads into: instructions as a prefix, labels with the same addresses |
| LoaderFacts.LabelBinding | interp/src/lib.rs:48-51 | a label directive binds its name to the number of instructions emitted before it, and no earlier line bound that name |
| LoaderFacts.InstrPlacement | interp/src/lib.rs:47 | the instruction on a line is stored at the address equal to the number of instructions emitted before it |
| LoaderFacts.AssembledLabels | interp/src/lib.rs:45-54 | the label table binds exactly the names of the text's label directives, and each line adds exactly one instruction or one binding |
| LoaderFacts.AssembleOkIff | interp/src/lib.rs:45-54 | a text loads if and only if every line parses and no label is defined twice |
| LoaderFacts.AssembleParsedErrors | interp/src/lib.rs:45-54 | when every line parses, the only error the load can end with is "duplicate label" |
| LoaderFacts.DuplicateLabelError | interp/src/lib.rs:48-50 | a label directive repeated later in the text, with every line up to the repeat parsing, fails the whole load with "duplicate label" |
| LoaderFacts.AssembleInstrs | interp/src/lib.rs:45-47 | lines that are all instructions load into exactly those instructions with an empty label table |
| LoaderFacts.LoadUnparse | interp/src/lib.rs:34-56 | a program whose jump targets are all non-empty whitespace-free words, written out one instruction per line, loads back into the same program |
| Semantics.Step | interp/src/lib.rs:129-183 | one dispatch arm: `push` adds its value; `add` replaces the top two values with their wrapped sum and `sub` with deeper minus top, wrapped; `dup` copies the top; `print` pops the top and outputs it; `pop` drops it; `je`/`jne` pop a value and finish in `Jump`; every arm but a jump moves to the next address, and any pop from a stack too short is "stack underflow" |
| Semantics.Jump | interp/src/lib.rs:160-183 | after its value was popped, a jump fails exactly when it is taken and its label is unbound, and then with "undefined label"; otherwise the stack and output are untouched, a taken jump moves to its label's address and one not taken to the next address |
| Semantics.Exec | interp/src/lib.rs:119-127 | the `run` loop with a step bound: it halts once the program counter is past the end; otherwise it notifies the control point of the address and runs the instruction there, ending in the state before it if it fails, and going on from the new state if not |
| SemanticsFacts.StepStackEffect | interp/src/lib.rs:129-158 | an instruction underflows if and only if the stack holds fewer values than it pops; otherwise the values below are untouched, the height changes by pushes minus pops, and only `print` adds output, namely the value it popped |
| SemanticsFacts.StepTopValues | interp/src/lib.rs:130-149 | `push` puts its operand on top, `add` the wrapped sum of the two popped values, `sub` the deeper value minus the top one, wrapped, and `dup` a copy of the top |
| SemanticsFacts.StepControl | interp/src/lib.rs:160-183 | every instruction but a taken jump moves to the next address, and a taken jump moves to its label's address; a jump pops exactly one value, and fails with "undefined label" if and only if it is taken and its label is unbound |
| SemanticsFacts.ExecUnfold | interp/src/lib.rs:122-133 | a run that executes an instruction is that instruction's notification followed by the run from the new state |
| SemanticsFacts.ExecStop | interp/src/lib.rs:122-126 | a run whose program counter is past the end halts at once without notifying the control point |
| SemanticsFacts.ExecFault | interp/src/lib.rs:127-129 | a failing instruction is notified, then ends the run with its error |
| SemanticsFacts.ExecShape | interp/src/lib.rs:119-186 | a run halts if and only if the program counter has left the program; every notified address is inside the program, and the first is the starting one; a fault happens at the last notified address; output is only ever appended to |
| SemanticsFacts.ExecMoreFuel | interp/src/lib.rs:119-186 | a run that ended within its step bound ends the same way with any larger bound |
| SemanticsFacts.ExecResume | interp/src/lib.rs:119-186 | a run cut short can be resumed: two runs in a row are one run with the notifications concatenated |
| SemanticsFacts.ExecStraightLine | interp/src/lib.rs:122-158 | without jumps, the k-th notified address is the starting address plus k, and a run that halts notified every address to the end once |
| SemanticsFacts.StraightLineTrace | interp/src/lib.rs:122-127 | a jump-free program that runs to completion notifies the control point of addresses 0, 1, …, n-1 in that order |
| Engine.Stack.constructor | interp/src/lib.rs:217-219 | a new stack is empty |
| Engine.Stack.Push | interp/src/lib.rs:221-223 | the value is added on top |
| Engine.Stack.Pop | interp/src/lib.rs:225-231 | the top value is removed and returned; on an empty stack the result is "stack underflow" and the stack stays empty |
| Engine.Stack.PopNumber | interp/src/lib.rs:233-239 | the number in the top value is removed and returned, with the same underflow |
| Engine.Interp.constructor | interp/src/lib.rs:24-32 | a new interpreter holds the loaded program and labels, an empty stack and program counter 0 |
| Engine.Interp.Execute | interp/src/lib.rs:129-184 | one dispatch arm leaves the interpreter in the state `Step` gives, or fails with `Step`'s error without printing or moving the program counter |
| Engine.Interp.Arithmetic | interp/src/lib.rs:134-149 | the `add` and `sub` arms, with the same contract as `Execute` |
| Engine.Interp.Branch | interp/src/lib.rs:160-183 | the `je` and `jne` arms, with the same contract as `Execute` |
| Engine.Interp.Cycle | interp/src/lib.rs:123-129 | the control point is notified of the current address, then the instruction there either leaves the state `Step` gives, so the run continues as `Exec` from that state, or fails, ending the run with that error at the same address and with no new output |
| Engine.Interp.Run | interp/src/lib.rs:119-186 | the loop ends with the status, output and notifications of `Exec`; unless an instruction failed it also ends with the same program counter and stack |
| Engine.Interpretation | interp/src/lib.rs:24-32 | the outcome of loading then running: a load error if the text does not load, otherwise the run's status and output from address 0 with an empty stack |
| Engine.Interpret | interp/src/lib.rs:24-32 | loading the text then running it gives the outcome `Interpretation` specifies |
| Examples.DoubleSpace | interp/src/lib.rs:67-68 | `push` followed by two spaces and `5` reads an empty operand and fails with "unparsed number" |
| Examples.LineErrors | interp/src/lib.rs:66-116 | on tokens: `x: y` is "too many operands"; `je 1` is "too few arguments"; `je one` is "unparsed number"; an empty opcode is "unknown opcode"; a lone `:` binds the empty label |
| Examples.LineErrorsOnLines | interp/src/lib.rs:66-116 | on whole lines: the empty line is "unknown opcode", `x: y` is "too many operands" and `je 1` is "too few arguments" |
| Examples.JumpOperandNotNumber | interp/src/lib.rs:85-89 | the line `je one` is "unparsed number" |
| Examples.EmptyLabel | interp/src/lib.rs:99-104 | the line `:` binds the empty label |
| Examples.DuplicateLoop | interp/src/lib.rs:48-51 | a second `loop:` fails the load with "duplicate label" |
| Examples.SkipAheadLoads | interp/src/lib.rs:45-51 | the seven parsed lines of the forward-jump program load into its six instructions, with `skip` bound to 4, the number of instructions before it |
| Examples.CountdownLoads | interp/src/lib.rs:45-51 | the countdown program's parsed lines load into its seven instructions with `loop` bound to 1, the address the backward jump returns to |
| Examples.LabelAtEnd | interp/src/lib.rs:48-49 | a label after the last instruction binds to the address just past the end |
| Examples.AddPrints | interp/src/lib.rs:134-153 | for any two operands, `push a`, `push b`, `add`, `print` halts with an empty stack, having printed their wrapped sum and notified addresses 0 to 3, whatever the step bound beyond 4 |
| Examples.AddPrintsText | interp/src/lib.rs:24-32 | the same program written as text loads with no labels, then halts having printed the wrapped sum |
| Examples.SubOrder | interp/src/lib.rs:145-149 | `push 10`, `push 3`, `sub`, `print` prints 7, not -7, and halts with an empty stack |
| Examples.DupAdds | interp/src/lib.rs:139-144 | `push 5`, `dup`, `add`, `print` prints 10 and halts with an empty stack |
| Examples.ForwardJump | interp/src/lib.rs:172-183 | `je 0 skip` jumps forward over two instructions to a label defined later in the text: the control point is notified of addresses 0, 1, 4 and 5 only |
| Examples.PopEmpty | interp/src/lib.rs:155-158 | `pop` on an empty stack fails with "stack underflow" after notifying its address |
| Examples.UndefinedLabelOnlyWhenTaken | interp/src/lib.rs:160-171 | an unbound label is harmless until the jump to it is taken: `jne 0 nowhere` falls through after popping 0, and fails with "undefined label" after popping 1 |
| Examples.CountdownDecrement | interp/src/lib.rs:130-149 | the first half of a countdown loop leaves two copies of the counter minus one |
| Examples.CountdownPrintJump | interp/src/lib.rs:150-171 | the second half prints the value, and jumps back unless it is 0 |
| Examples.CountdownLoop | interp/src/lib.rs:160-171 | from the loop label with counter k, the program prints k-1 down to 0 and halts |
| Examples.CountdownPrints | interp/src/lib.rs:119-186 | a countdown from 3 prints 2, 1, 0 and halts |

## Left out

- Opening and reading the file (`File::open`, `BufReader::lines`) is not modelled. The text is a sequence of lines, so the "Failed to open input file" error and the panic on a line that is not valid UTF-8 are not modelled either.
- The tracing back end is not modelled: `TracerBuilder`, `MetaTracer` and the `yorickrt` and `hwtracer` crates are foreign code. The control point is modelled only as the ghost log `Interp.trace`, and each `Location` is taken to be the instruction's address.
- `fatal`'s `println!` and `exit(1)` become an `Error` result. `print`'s `println!` becomes appending the value to the output; `Numbers.Show` gives its text without the newline.
- The debug-build panic on `i32` overflow in `add` and `sub` is not modelled. The model wraps to 32 bits, as a release build does.
- `src/main.rs` is not part of this model. It is a stub whose `parse` returns nothing and whose `run` does nothing.
- The `run` loop is allowed a given number of steps (`fuel`). A program that has not halted or failed within them ends as `OutOfFuel`, which has no counterpart in the source; `SemanticsFacts.ExecMoreFuel` and `SemanticsFacts.ExecResume` show that this bound only cuts runs short.
- Engine.Interp.Run: on a failing instruction it states the program counter, the output and the notifications, but not the stack. The source exits at that point, and an `add` or `sub` may already have popped one value.
- Loader.Parse: on an error it returns only the error, not the partly built program. The source exits at that point.
- Numbers.ParseI32: its own contract gives only the shape of the text it accepts. The value it reads is tied to the printed text by `Numbers.ParseShow`, but is not characterised for every input.
- Numbers.Show: its own contract says only that the text is non-empty. That the text is one whitespace-free token that reads back as the value is proved by `LoaderFacts.ShowNoWhitespace` and `Numbers.ParseShow`.
- LoaderFacts.ParseRender and LoaderFacts.LoadUnparse: stated only for jump targets that are one non-empty whitespace-free word. The loader also keeps targets that hold inner whitespace other than a space, such as a tab, and those are not covered.
- Examples.LineErrorsOnLines: its lines are written as words joined by single spaces (`Join`), not as string literals; the general lemmas it instantiates cover every such line.
