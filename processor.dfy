/** The `Processor` object: its fields are updated in place by one handler
    per instruction, and `Execute` drives them in a loop. Every method is
    proved against the value model of semantics.dfy. */
module Interpreter {
  import opened Tape
  import opened Instructions
  import opened Loops
  import opened Semantics
  import opened Properties

  class Processor {
    var data: seq<byte>
    var dataPointer: nat
    var closures: seq<Closure>          // top of the loop stack at index 0
    var instructionPointer: nat
    var instructionBuffer: seq<byte>
    var input: seq<byte>                // what the input reader still holds
    var output: seq<byte>               // every cell value written so far

    /** The processor as a value. */
    function Snapshot(): State
      reads this
    {
      State(data, dataPointer, closures, instructionPointer, instructionBuffer, input, output)
    }

    /** The class invariant: see `Semantics.Sound`. */
    ghost predicate Valid()
      reads this
    {
      Sound(Snapshot())
    }

    /** The gate of every tape and I/O handler: `p.closures[0].Skip`. */
    predicate Skip()
      reads this
      requires |closures| >= 1
      ensures Skip() <==> Skipping(Snapshot())
    {
      closures[0].skip
    }

    /** `Current`: the cell under the data pointer. */
    function Current(): (r: byte)
      reads this
      requires dataPointer < |data|
      ensures r == Semantics.Current(Snapshot())
    {
      data[dataPointer]
    }

    /** `NewProcessor`: one page of zero cells, only the root frame, no
        program; `input` is what reads from standard input will return. */
    constructor (input: seq<byte>)
      ensures Snapshot() == Initial(input)
      ensures Valid()
    {
      data := Zeros(PageSize);
      dataPointer := 0;
      closures := [RootFrame];
      instructionPointer := 0;
      instructionBuffer := [];
      this.input := input;
      output := [];
    }

    /** `ensureDataSize`: grow the tape page-wise once the pointer has left
        it; see `Tape.Grow` for what the new tape looks like. */
    method EnsureDataSize()
      modifies this`data
      ensures data == Grow(old(data), dataPointer)
    {
      if dataPointer >= |data| {
        var nextPagedSize := (1 + dataPointer / PageSize) * PageSize;
        data := data + Zeros(1 + nextPagedSize - |data|);
      }
    }

    /** `Load`: install a program and rewind the instruction pointer. */
    method Load(instructions: seq<byte>)
      modifies this`instructionBuffer, this`instructionPointer
      ensures Snapshot() == Semantics.Load(old(Snapshot()), instructions)
    {
      instructionBuffer := instructions;
      instructionPointer := 0;
    }

    /** `+`: the current cell gains one, wrapping at 256, unless skipping. */
    method Increment()
      requires Valid()
      modifies this`data
      ensures Valid()
      ensures Skip() ==> data == old(data)
      ensures !Skip() ==> data == old(data)[dataPointer := Inc(old(Current()))]
    {
      if closures[0].skip {
        return;
      }
      data := data[dataPointer := Inc(data[dataPointer])];
    }

    /** `-`: the current cell loses one, wrapping at 0, unless skipping. */
    method Decrement()
      requires Valid()
      modifies this`data
      ensures Valid()
      ensures Skip() ==> data == old(data)
      ensures !Skip() ==> data == old(data)[dataPointer := Dec(old(Current()))]
    {
      if closures[0].skip {
        return;
      }
      data := data[dataPointer := Dec(data[dataPointer])];
    }

    /** `>`: advance the data pointer and grow the tape if needed, unless
        skipping. */
    method MoveRight()
      requires Valid()
      modifies this`data, this`dataPointer
      ensures Valid()
      ensures Skip() ==> data == old(data) && dataPointer == old(dataPointer)
      ensures !Skip() ==> dataPointer == old(dataPointer) + 1 && data == Grow(old(data), dataPointer)
      ensures dataPointer < |data|
    {
      if closures[0].skip {
        return;
      }
      dataPointer := dataPointer + 1;
      EnsureDataSize();
    }

    /** `<`: step the data pointer back, unless skipping; at cell 0 this is
        fatal and nothing changes. */
    method MoveLeft() returns (fault: Option<Fault>)
      requires Valid()
      modifies this`dataPointer
      ensures Valid()
      ensures fault.Some? <==> !Skip() && old(dataPointer) == 0
      ensures fault.Some? ==> fault.value == OutOfBounds
      ensures dataPointer == if Skip() || fault.Some? then old(dataPointer) else old(dataPointer) - 1
    {
      if closures[0].skip {
        return None;
      }
      if dataPointer == 0 {
        return Some(OutOfBounds);
      }
      dataPointer := dataPointer - 1;
      return None;
    }

    /** `.`: write the current cell, unless skipping. */
    method Output()
      requires Valid()
      modifies this`output
      ensures Valid()
      ensures output == if Skip() then old(output) else old(output) + [Current()]
    {
      if closures[0].skip {
        return;
      }
      output := output + [data[dataPointer]];
    }

    /** `,`: read one byte into the current cell, unless skipping; a read
        from exhausted input is fatal and nothing changes. */
    method Input() returns (fault: Option<Fault>)
      requires Valid()
      modifies this`data, this`input
      ensures Valid()
      ensures fault.Some? <==> !Skip() && old(input) == []
      ensures fault.Some? ==> fault.value == InputExhausted
      ensures Skip() || fault.Some? ==> data == old(data) && input == old(input)
      ensures !Skip() && fault.None? ==>
        data == old(data)[dataPointer := old(input)[0]] && input == old(input)[1..]
    {
      if closures[0].skip {
        return None;
      }
      if input == [] {
        return Some(InputExhausted);
      }
      data := data[dataPointer := input[0]];
      input := input[1..];
      return None;
    }

    /** `[`: push a frame that remembers this `[` and skips exactly when the
        current cell is 0. */
    method StartLoop()
      requires Valid()
      modifies this`closures
      ensures Valid()
      ensures closures ==
        [Closure(skip := Current() == 0, root := false, start := instructionPointer)] + old(closures)
    {
      closures := [Closure(skip := data[dataPointer] == 0, root := false, start := instructionPointer)] + closures;
    }

    /** `]`: fatal with only the root frame left; jump back to the top
        frame's `[` while it does not skip and the cell is non-zero;
        otherwise pop the top frame. */
    method EndLoop() returns (fault: Option<Fault>)
      requires Valid()
      modifies this`closures, this`instructionPointer
      ensures Valid()
      ensures fault.Some? <==> |old(closures)| <= 1
      ensures fault.Some? ==>
        fault.value == UnbalancedLoop && closures == old(closures) && instructionPointer == old(instructionPointer)
      ensures fault.None? && !old(closures)[0].skip && Current() > 0 ==>
        closures == old(closures) && instructionPointer == old(closures)[0].start
      ensures fault.None? && (old(closures)[0].skip || Current() == 0) ==>
        closures == old(closures)[1..] && instructionPointer == old(instructionPointer)
    {
      if |closures| <= 1 {
        return Some(UnbalancedLoop);
      }
      var currentClosure := closures[0];
      if !currentClosure.skip {
        if data[dataPointer] > 0 {
          instructionPointer := currentClosure.start;
          return None;
        }
      }
      closures := closures[1..];
      return None;
    }

    /** `ExpectEnd`: fatal exactly when a loop frame above the root is still
        open. */
    method ExpectEnd() returns (fault: Option<Fault>)
      ensures fault.Some? <==> |closures| > 1
      ensures fault.Some? ==> fault.value == UnterminatedLoop
    {
      if |closures| > 1 {
        return Some(UnterminatedLoop);
      }
      return None;
    }

    /** The `switch` in the body of `Execute`'s loop: run the handler of the
        instruction under the instruction pointer. */
    method Dispatch() returns (fault: Option<Fault>)
      requires Valid() && instructionPointer < |instructionBuffer|
      modifies this`data, this`dataPointer, this`closures, this`instructionPointer, this`input, this`output
      ensures Valid()
      ensures fault.None? ==> Semantics.Dispatch(old(Snapshot())) == Ok(Snapshot())
      ensures fault.Some? ==>
        Semantics.Dispatch(old(Snapshot())) == Fatal(fault.value) && Snapshot() == old(Snapshot())
    {
      var instruction := instructionBuffer[instructionPointer];
      fault := None;
      if instruction == InstMoveRight {
        MoveRight();
      } else if instruction == InstMoveLeft {
        fault := MoveLeft();
      } else if instruction == InstDecrement {
        Decrement();
      } else if instruction == InstIncrement {
        Increment();
      } else if instruction == InstInput {
        fault := Input();
      } else if instruction == InstOutput {
        Output();
      } else if instruction == InstLoopStart {
        StartLoop();
      } else if instruction == InstLoopEnd {
        fault := EndLoop();
      }
    }

    /** `Execute`, allowed at most `fuel` iterations: it ends as `Run` says,
        and leaves the processor in the state `Run` ends in. */
    method Execute(fuel: nat) returns (o: Outcome)
      requires Valid()
      modifies this`data, this`dataPointer, this`closures, this`instructionPointer, this`input, this`output
      ensures Valid()
      ensures o == Run(old(Snapshot()), fuel)
      ensures Snapshot() == o.state
    {
      var remaining := fuel;
      while instructionPointer < |instructionBuffer| && remaining > 0
        invariant Valid()
        invariant Run(old(Snapshot()), fuel) == Run(Snapshot(), remaining)
        decreases remaining
      {
        ghost var before := Snapshot();
        var fault := Dispatch();
        if fault.Some? {
          RunFatal(before, remaining, fault.value);
          return Failed(fault.value, Snapshot());
        }
        ghost var dispatched := Snapshot();
        ghost var next := dispatched.(instructionPointer := dispatched.instructionPointer + 1);
        RunOk(before, remaining, dispatched);
        SoundAnyIp(dispatched, dispatched.instructionPointer + 1);
        instructionPointer := instructionPointer + 1;
        assert Snapshot() == next;
        remaining := remaining - 1;
      }
      if instructionPointer >= |instructionBuffer| {
        o := Halted(Snapshot());
      } else {
        o := OutOfFuel(Snapshot());
      }
    }
  }

  /** What the program's entry point does with a processor: load the
      program, execute it (here with at most `fuel` iterations), then check
      that no loop is left open. The fault is the first fatal error, if
      any. */
  method Interpret(program: seq<byte>, input: seq<byte>, fuel: nat) returns (o: Outcome, fault: Option<Fault>)
    ensures o == Run(Semantics.Load(Initial(input), program), fuel)
    ensures o.Failed? ==> fault == Some(o.fault)
    ensures o.Halted? ==> (fault.Some? <==> Open(program, |program|) != [])
    ensures o.Halted? && fault.Some? ==> fault.value == UnterminatedLoop
    ensures o.OutOfFuel? ==> fault.None?
  {
    var p := new Processor(input);
    p.Load(program);
    LoadedInv(input, program);
    o := p.Execute(fuel);
    fault := None;
    if o.Failed? {
      fault := Some(o.fault);
    } else if o.Halted? {
      UnterminatedIff(Semantics.Load(Initial(input), program), fuel);
      fault := p.ExpectEnd();
    }
  }
}
