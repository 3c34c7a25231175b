/** The processor's state as a value, one iteration of `Execute`'s loop as
    the function `Step`, and `Execute` itself, bounded by fuel, as `Run`.
    The class in processor.dfy is proved against these; the lemmas here
    state what the interpreter guarantees. */
module Semantics {
  import opened Tape
  import opened Instructions
  import opened Loops

  /** The conditions on which the source calls `log.Fatal`. */
  datatype Fault =
    | OutOfBounds       // `<` with the data pointer at 0
    | UnbalancedLoop    // `]` with only the root frame left
    | UnterminatedLoop  // end of program with a loop still open
    | InputExhausted    // `,` when reading a byte from the input fails

  datatype Option<T> = None | Some(value: T)

  datatype Result<T> = Ok(value: T) | Fatal(fault: Fault)

  /** A `Processor` as a value. The input is what the reader still holds,
      the output every cell value written so far. */
  datatype State = State(
    data: seq<byte>,
    dataPointer: nat,
    closures: seq<Closure>,
    instructionPointer: nat,
    instructionBuffer: seq<byte>,
    input: seq<byte>,
    output: seq<byte>)

  /** How a run of `Execute` ends: past the last instruction, at a fatal
      error (with the state just before the failing instruction), or with
      its fuel spent. */
  datatype Outcome =
    | Halted(state: State)
    | Failed(fault: Fault, state: State)
    | OutOfFuel(state: State)

  /** What every handler relies on to index the tape and the top frame. */
  predicate WellFormed(s: State)
  {
    s.dataPointer < |s.data| && |s.closures| >= 1
  }

  /** The cell under the data pointer. */
  function Current(s: State): (r: byte)
    requires s.dataPointer < |s.data|
    ensures r == s.data[s.dataPointer]
  {
    s.data[s.dataPointer]
  }

  /** The gate of every tape and I/O instruction: the top frame's `skip`. */
  predicate Skipping(s: State)
    requires |s.closures| >= 1
    ensures Skipping(s) <==> s.closures[0].skip
  {
    s.closures[0].skip
  }

  /** The invariant every processor keeps, whatever program it runs: the
      root frame sits at the bottom, a skipping top frame means the current
      cell is 0, and a skipping frame only ever has skipping frames above it. */
  predicate Sound(s: State)
  {
    WellFormed(s)
    && s.closures[|s.closures| - 1] == RootFrame
    && (Skipping(s) ==> Current(s) == 0)
    && forall i :: 0 < i < |s.closures| && s.closures[i].skip ==> s.closures[i - 1].skip
  }

  /** The loop stack mirrors the program: the frames above the root are
      exactly the unmatched `[` before the instruction pointer, innermost
      first. */
  predicate Inv(s: State)
  {
    Sound(s)
    && s.instructionPointer <= |s.instructionBuffer|
    && Starts(s.closures) == Open(s.instructionBuffer, s.instructionPointer)
  }

  /** `NewProcessor`, reading from `input`: one zero page, the root frame,
      an empty program. */
  function Initial(input: seq<byte>): (r: State)
    ensures Sound(r) && !Skipping(r) && Starts(r.closures) == []
    ensures |r.data| == PageSize && forall i :: 0 <= i < |r.data| ==> r.data[i] == 0
    ensures r.dataPointer == 0 && r.instructionBuffer == [] && r.input == input && r.output == []
  {
    State(Zeros(PageSize), 0, [RootFrame], 0, [], input, [])
  }

  /** `Load`: install the program and rewind; nothing else is reset. */
  function Load(s: State, program: seq<byte>): (r: State)
    ensures r.instructionBuffer == program && r.instructionPointer == 0
    ensures r.data == s.data && r.dataPointer == s.dataPointer && r.closures == s.closures
    ensures r.input == s.input && r.output == s.output
    ensures Sound(r) <==> Sound(s)
    ensures Sound(s) && Starts(s.closures) == [] ==> Inv(r)
  {
    s.(instructionBuffer := program, instructionPointer := 0)
  }

  /** The `switch` of `Execute`: run the handler of the instruction under
      the instruction pointer. A loop jump only sets the instruction
      pointer back to the frame's `[`. */
  function Dispatch(s: State): (r: Result<State>)
    requires WellFormed(s) && s.instructionPointer < |s.instructionBuffer|
    ensures r.Ok? ==> WellFormed(r.value) && r.value.instructionBuffer == s.instructionBuffer
  {
    var instruction := s.instructionBuffer[s.instructionPointer];
    if instruction == InstMoveRight then
      if Skipping(s) then Ok(s)
      else Ok(s.(dataPointer := s.dataPointer + 1, data := Grow(s.data, s.dataPointer + 1)))
    else if instruction == InstMoveLeft then
      if Skipping(s) then Ok(s)
      else if s.dataPointer == 0 then Fatal(OutOfBounds)
      else Ok(s.(dataPointer := s.dataPointer - 1))
    else if instruction == InstDecrement then
      if Skipping(s) then Ok(s)
      else Ok(s.(data := s.data[s.dataPointer := Dec(Current(s))]))
    else if instruction == InstIncrement then
      if Skipping(s) then Ok(s)
      else Ok(s.(data := s.data[s.dataPointer := Inc(Current(s))]))
    else if instruction == InstInput then
      if Skipping(s) then Ok(s)
      else if s.input == [] then Fatal(InputExhausted)
      else Ok(s.(data := s.data[s.dataPointer := s.input[0]], input := s.input[1..]))
    else if instruction == InstOutput then
      if Skipping(s) then Ok(s)
      else Ok(s.(output := s.output + [Current(s)]))
    else if instruction == InstLoopStart then
      Ok(s.(closures := [Closure(skip := Current(s) == 0, root := false, start := s.instructionPointer)] + s.closures))
    else if instruction == InstLoopEnd then
      if |s.closures| <= 1 then Fatal(UnbalancedLoop)
      else if !s.closures[0].skip && Current(s) > 0 then Ok(s.(instructionPointer := s.closures[0].start))
      else Ok(s.(closures := s.closures[1..]))
    else
      Ok(s)
  }

  /** One iteration of `Execute`'s loop: dispatch, then `instructionPointer++`. */
  function Step(s: State): (r: Result<State>)
    requires WellFormed(s) && s.instructionPointer < |s.instructionBuffer|
    ensures r.Ok? ==> WellFormed(r.value) && r.value.instructionBuffer == s.instructionBuffer
  {
    match Dispatch(s)
    case Ok(t) => Ok(t.(instructionPointer := t.instructionPointer + 1))
    case Fatal(f) => Fatal(f)
  }

  /** `Execute` with at most `fuel` iterations of its loop. */
  function Run(s: State, fuel: nat): (o: Outcome)
    requires WellFormed(s)
    ensures WellFormed(o.state) && o.state.instructionBuffer == s.instructionBuffer
    ensures o.Halted? ==> o.state.instructionPointer >= |s.instructionBuffer|
    ensures !o.Halted? ==> o.state.instructionPointer < |s.instructionBuffer|
    decreases fuel, 1
  {
    if s.instructionPointer >= |s.instructionBuffer| then Halted(s)
    else if fuel == 0 then OutOfFuel(s)
    else Iterate(s, fuel)
  }

  /** One iteration of the loop, then the rest of the run. */
  function Iterate(s: State, fuel: nat): (o: Outcome)
    requires WellFormed(s) && s.instructionPointer < |s.instructionBuffer| && 0 < fuel
    ensures WellFormed(o.state) && o.state.instructionBuffer == s.instructionBuffer
    ensures o.Halted? ==> o.state.instructionPointer >= |s.instructionBuffer|
    ensures !o.Halted? ==> o.state.instructionPointer < |s.instructionBuffer|
    decreases fuel, 0
  {
    match Step(s)
    case Ok(t) => Run(t, fuel - 1)
    case Fatal(f) => Failed(f, s)
  }

  /** An iteration that succeeds hands the rest of the fuel to its successor. */
  lemma RunOk(s: State, fuel: nat, t: State)
    requires WellFormed(s) && s.instructionPointer < |s.instructionBuffer| && 0 < fuel
    requires Dispatch(s) == Ok(t)
    ensures Run(s, fuel) == Run(t.(instructionPointer := t.instructionPointer + 1), fuel - 1)
  {
  }

  /** An iteration that fails ends the run in the state before it. */
  lemma RunFatal(s: State, fuel: nat, f: Fault)
    requires WellFormed(s) && s.instructionPointer < |s.instructionBuffer| && 0 < fuel
    requires Dispatch(s) == Fatal(f)
    ensures Run(s, fuel) == Failed(f, s)
  {
  }

  /** The invariant does not depend on the instruction pointer. */
  lemma SoundAnyIp(s: State, ip: nat)
    requires Sound(s)
    ensures Sound(s.(instructionPointer := ip))
  {
  }
}
