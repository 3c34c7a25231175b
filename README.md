# gobfy in Dafny

A model of the interpreter core of gobfy, a Brainfuck interpreter written
in Go (`main.go`). A `Processor` has the following parts:

- a tape of 8-bit cells that grows page by page;
- a data pointer;
- a stack of loop frames (`Closure`), with the top at index 0 and a root
  sentinel frame at the bottom;
- a program buffer and an instruction pointer.

`Execute` walks the program one byte at a time. It dispatches the eight
instruction characters to one handler each, treats every other byte as a
no-op, and then advances the instruction pointer by one. A `[` pushes a
frame that remembers its own position and whether the current cell was 0.
While the top frame "skips", every tape and I/O instruction does nothing.
A `]` then does one of three things:

- it jumps back to the frame's `[`;
- it pops the frame;
- it stops the interpreter when no loop is open.

The project has these files:

- `tape.dfy` (module `Tape`): the `byte` type, wrap-around increment and
  decrement, and the page-quantised growth of `ensureDataSize`.
- `instructions.dfy` (module `Instructions`): the eight instruction bytes.
- `loops.dfy` (module `Loops`): `Closure`, the root frame, and `Open`.
  `Open` gives the positions of the `[` that are still unmatched in a
  prefix of the program.
- `semantics.dfy` (module `Semantics`): the processor as a value (`State`).
  It holds the `switch` of `Execute` as `Dispatch`, one iteration of the
  loop as `Step`, and `Execute` with a fuel bound as `Run`. It also holds
  the invariants `Sound` and `Inv`.
- `properties.dfy` (module `Properties`): what the interpreter guarantees,
  proved over the value model.
- `processor.dfy` (module `Interpreter`): the class `Processor`. Its
  handlers update the fields in place, and `Execute` is a `while` loop. Each
  method is proved against the value model. `Interpret` is the sequence the
  entry point runs: `NewProcessor`, `Load`, `Execute`, `ExpectEnd`.
- `programs.dfy` (module `Programs`): whole programs from a fresh processor.
  `++++++++[>++++++++<-]>.` writes `[64]`, `,.` echoes its input, `+[]`
  never ends, and `]`, `<`, `,` and `[` fail as the source says.

Each `log.Fatal` becomes a `Fault`. A handler returns the fault and changes
nothing. `Run` ends in `Failed(fault, state)`, where `state` is the state
just before the failing instruction. The input is the sequence of bytes that
reads from standard input would return. The output is the sequence of cell
values written by `.`. `Current` (main.go:123-125) has no caller in
`main.go`; the model has it as `Semantics.Current` and as
`Interpreter.Processor.Current`. The handler contracts and
`Semantics.Dispatch` use it for `-`, `+`, `.`, `[` and `]`.

In `main.go`, `Execute` (main.go:85-121) only runs the loop, and
`main` calls `ExpectEnd` afterwards (main.go:233-235). The model follows the
code. `Run` never reports `UnterminatedLoop`; `ExpectEnd` and `Interpret`
report it.

## Model

| member | source | states |
|---|---|---|
| `Tape.Inc` | main.go:127-133 | the incremented cell is the old value plus one modulo 256 |
| `Tape.Dec` | main.go:135-141 | the decremented cell is the old value minus one modulo 256 |
| `Tape.IncDecInverse` | main.go:127-141 | decrement undoes increment and vice versa; 255 wraps to 0 and 0 to 255 |
| `Tape.Zeros` | main.go:59 | a fresh block of cells has the requested length and holds only zeros |
| `Tape.Grow` | main.go:72-78 | afterwards the pointer indexes a cell; the tape never shrinks and keeps its old cells; new cells are 0; a pointer already inside leaves the tape alone; a grown length is one past a page boundary lying strictly above the pointer and at most one page above it |
| `Tape.GrowLength` | main.go:75-76 | the growth bounds pin the new length to exactly `(1 + pointer / 1024) * 1024 + 1` |
| `Loops.Starts` | main.go:37-41 | the start positions of the frames above the root, top first, one per frame |
| `Loops.Open` | main.go:184-208 | every unmatched position before `n` holds a `[` |
| `Loops.TopSplit` | main.go:193-208 | below the innermost unmatched `[` lies exactly what was open just before it, and just after it exactly what is open now, so a jump back to it resumes with the same frames |
| `Semantics.Initial` | main.go:57-66 | `NewProcessor`: one page of zero cells, pointer 0, only the root frame, an empty program, the given input and no output; the invariant holds, nothing skips and no loop is open |
| `Semantics.Load` | main.go:80-83 | installs the program and rewinds the instruction pointer, leaving tape, pointer, frames, input and output as they were; it keeps the invariant either way, and with no loop open the stack mirrors the new program |
| `Semantics.Current` | main.go:123-125 | the byte under the data pointer |
| `Semantics.Skipping` | main.go:128-130 | holds exactly when the top frame's `skip` is set, the test every tape and I/O handler makes first |
| `Semantics.Dispatch` | main.go:98-117 | a handler that does not fail leaves the pointer inside the tape, at least one frame, and the program unchanged |
| `Semantics.Step` | main.go:86-120 | one iteration keeps the pointer inside the tape, at least one frame, and the program |
| `Semantics.Run` | main.go:85-121 | `Execute` halts only once the instruction pointer has left the program; a failure or an exhausted fuel bound stops with the pointer on an instruction; the program is never changed |
| `Semantics.Iterate` | main.go:86-120 | one pass of the loop body followed by the rest of the run ends like `Run`: halting only past the program, stopping otherwise on an instruction, the program unchanged |
| `Semantics.RunOk` | main.go:97-119 | a handler that succeeds costs one unit of fuel and the run goes on from the next instruction |
| `Semantics.RunFatal` | main.go:97-119 | a handler that fails ends the run at once, in the state before the instruction |
| `Properties.LoadedInv` | main.go:57-66 | a fresh processor with a loaded program holds only the root frame and satisfies the full invariant |
| `Properties.StepKeepsSound` | main.go:127-208 | every instruction keeps the root frame at the bottom, keeps a skipping top frame on a zero cell, and only stacks skipping frames above skipping frames |
| `Properties.StepKeepsInv` | main.go:184-208 | every instruction keeps the frames above the root equal to the unmatched `[` before the instruction pointer, innermost first |
| `Properties.StartLoopKeepsInv` | main.go:184-191 | the frame `[` pushes records exactly the position that becomes the innermost unmatched `[` |
| `Properties.EndLoopKeepsInv` | main.go:193-208 | after `]` jumps back or pops, the frames above the root are again the unmatched `[` before the instruction pointer |
| `Properties.SkipFreezes` | main.go:128-191 | while the top frame skips, no instruction fails or touches the tape, pointer, input or output; `[` pushes a skipping frame, `]` pops, nothing else touches the stack |
| `Properties.SkipRun` | main.go:85-191 | any number of iterations taken while the top frame skips, nested loops included, are iterations of `Execute` that do not fail and leave tape, pointer, input and output untouched, advancing one instruction each and keeping the invariant; they stop early only once the skipping or the program ends |
| `Properties.EndLoopOutcomes` | main.go:193-208 | `]` is fatal exactly when no `[` is open; it jumps to just after the frame's own `[` while the frame does not skip and the cell is non-zero, with the stack unchanged; otherwise it pops exactly the top frame |
| `Properties.RunKeepsInv` | main.go:85-121 | the root frame is never popped, and the stack mirrors the unmatched `[`, across any run |
| `Properties.RunFailsAtStep` | main.go:85-121 | a failed run stops with the state just before the instruction that fails |
| `Properties.FailureCauses` | main.go:152-208 | `OutOfBounds` happens exactly at `<` and only at cell 0, `UnbalancedLoop` exactly at `]` with nothing open, `InputExhausted` exactly at `,` with the input used up; never while skipping, and never `UnterminatedLoop` |
| `Properties.UnterminatedIff` | main.go:210-214 | when `Execute` runs off the end, a frame above the root remains exactly when the program has an unmatched `[` |
| `Properties.RunAppend` | main.go:85-121 | `a + b` iterations are `a` iterations and then, only if those ran out of fuel, `b` more from where they stopped; more fuel never changes a run that has ended |
| `Properties.StepReaches` | main.go:86-120 | an iteration that does not fail leads to its successor whatever fuel remains |
| `Properties.StepIncDec` | main.go:127-141 | one `+` or `-` outside a skipped loop moves the current cell one step around the ring and advances the instruction pointer |
| `Properties.NetAppend` | main.go:127-141 | the net `+`/`-` count of two consecutive stretches is the sum of their counts |
| `Properties.RunIncDec` | main.go:127-141 | a stretch of `+` and `-` outside a skipped loop moves the current cell by their net count modulo 256 and changes nothing else |
| `Properties.IncDecNone` | main.go:86-120 | an empty stretch of `+` and `-` leaves the state as it is |
| `Properties.IncDecThenRest` | main.go:127-141 | one `+` or `-` followed by the rest of a stretch reaches the state the whole stretch should leave |
| `Interpreter.Processor.constructor` | main.go:57-66 | `NewProcessor`: one page of zeros, pointer 0, only the root frame, empty program, and the invariant holds |
| `Interpreter.Processor.Current` | main.go:123-125 | the cell under the data pointer, as `Semantics.Current` of the processor's state |
| `Interpreter.Processor.Skip` | main.go:128-130 | the `closures[0].Skip` gate, as `Semantics.Skipping` of the processor's state |
| `Interpreter.Processor.EnsureDataSize` | main.go:72-78 | the tape becomes the grown tape of `Tape.Grow` |
| `Interpreter.Processor.Load` | main.go:80-83 | installs the program and rewinds the instruction pointer, nothing else |
| `Interpreter.Processor.Increment` | main.go:127-133 | only the current cell changes, by one modulo 256, unless skipping |
| `Interpreter.Processor.Decrement` | main.go:135-141 | only the current cell changes, by minus one modulo 256, unless skipping |
| `Interpreter.Processor.MoveRight` | main.go:143-150 | unless skipping, the pointer advances by one and the tape grows as `Tape.Grow` says; the pointer always indexes a cell |
| `Interpreter.Processor.MoveLeft` | main.go:152-162 | fatal `OutOfBounds` exactly when not skipping at cell 0, with nothing changed; otherwise the pointer steps back by one unless skipping |
| `Interpreter.Processor.Output` | main.go:164-170 | appends exactly the current cell to the output, unless skipping |
| `Interpreter.Processor.Input` | main.go:172-182 | fatal `InputExhausted` exactly when not skipping and the input is used up; otherwise, unless skipping, consumes one byte and writes it to the current cell |
| `Interpreter.Processor.StartLoop` | main.go:184-191 | prepends exactly one frame `{start: ip, skip: cell == 0}` whatever the top frame is, keeping the older frames |
| `Interpreter.Processor.EndLoop` | main.go:193-208 | fatal `UnbalancedLoop` exactly when only one frame is left; jumps to the frame's start keeping the stack when it does not skip and the cell is non-zero; otherwise pops exactly the top frame |
| `Interpreter.Processor.ExpectEnd` | main.go:210-214 | fails with `UnterminatedLoop` exactly when more than the root frame is left |
| `Interpreter.Processor.Dispatch` | main.go:98-117 | the handlers together do what `Semantics.Dispatch` says, and a fatal handler changes nothing |
| `Interpreter.Processor.Execute` | main.go:85-121 | the loop ends as `Run` says and leaves the processor in the state `Run` ends in, keeping the invariant |
| `Interpreter.Interpret` | main.go:227-235 | the sequence the entry point runs ends as `Run` from a fresh processor; the reported fault is the fatal instruction's, or `UnterminatedLoop` exactly when the program has an unmatched `[` |
| `Programs.Body` | main.go:127-162 | the loop body `>++++++++<-` adds 8 to the second cell, takes 1 from the counter and arrives at the `]` |
| `Programs.LoopBack` | main.go:198-204 | with the counter non-zero, `]` jumps back to just after `[` keeping the frame |
| `Programs.LoopExit` | main.go:198-207 | with the counter at 0, `]` pops the frame and falls through |
| `Programs.LastPass` | main.go:193-208 | a pass with the counter at 1 empties it and leaves the loop |
| `Programs.PassThenRest` | main.go:193-208 | one pass that jumps back, then the remaining passes, together take `12 * k` iterations |
| `Programs.Passes` | main.go:85-121 | `k` passes empty the counter and add `8 * k` to the second cell |
| `Programs.Counter` | main.go:127-133 | `++++++++` from a fresh processor sets the first cell to 8 and moves to the `[` |
| `Programs.Prologue` | main.go:85-121 | `++++++++[` sets the counter to 8 and enters the loop |
| `Programs.Epilogue` | main.go:164-170 | `>.` after the loop writes the second cell and ends the program |
| `Programs.SquareWrites64` | main.go:85-121 | `++++++++[>++++++++<-]>.` halts after 107 iterations having written exactly `[64]` |
| `Programs.EchoCopies` | main.go:172-182 | `,.` copies its one input byte to the output |
| `Programs.ReadPastEnd` | main.go:177-180 | `,` with no input is fatal before anything changes |
| `Programs.LeftOfStart` | main.go:157-159 | `<` on a fresh processor is fatal |
| `Programs.StrayLoopEnd` | main.go:194-196 | `]` with no `[` before it is fatal |
| `Programs.UnclosedLoop` | main.go:184-191 | `[` alone skips to the end but leaves a skipping frame open |
| `Programs.FixedPointSpins` | main.go:86-120 | a state that one iteration maps to itself runs out of every fuel bound |
| `Programs.SpinForever` | main.go:193-205 | `+[]` never halts, whatever the fuel |

## Left out

- `main` (main.go:216-236): command-line parsing, reading the program file
  and the debug flag. They are I/O glue. `Interpret` models only the
  processor calls that `main` makes.
- The debug trace in `Execute` (main.go:89-96): it only logs and has no
  effect on the state.
- `Stdin` (main.go:68-70) and the `bufio` reader (main.go:60): the
  constructor takes the input bytes instead. A read error other than end of
  input cannot be told apart from it here.
- `Output` renders each cell as a UTF-8 encoded code point
  (main.go:169). The model records the cell values written, not the bytes
  of their UTF-8 form.
- `log.Fatal` ends the process. In the model it is a `Fault` result, and the
  state stays as it was before the failing instruction.
- The `Root` field of `Closure` is set but never read (main.go:39, 62). The
  model carries it; only the "root frame is never popped" behaviour is
  proved.
- Interpreter.Processor.Execute: runs at most `fuel` iterations, because
  the source's loop need not terminate (`+[]`). Termination in general is
  not modelled.
- Interpreter.Processor: the tape is a `seq` field reassigned by each
  handler, not a Go slice. Aliasing between slices, and the capacity that
  `append` reserves, are not modelled.
- Go's `int` for the data and instruction pointers is unbounded here. A
  program would need more than 2^63 moves to the right to overflow it.
