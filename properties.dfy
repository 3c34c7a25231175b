/** What the interpreter guarantees, stated over the value model. */
module Properties {
  import opened Tape
  import opened Instructions
  import opened Loops
  import opened Semantics

  /** A freshly created processor with a loaded program is consistent. */
  lemma LoadedInv(input: seq<byte>, program: seq<byte>)
    ensures Inv(Load(Initial(input), program))
    ensures Load(Initial(input), program).closures == [RootFrame]
  {
  }

  /** Every iteration of `Execute` keeps the root frame at the bottom and
      the skip discipline. */
  lemma StepKeepsSound(s: State)
    requires Sound(s) && s.instructionPointer < |s.instructionBuffer|
    ensures Step(s).Ok? ==> Sound(Step(s).value)
  {
    if Step(s).Ok? {
      var t := Step(s).value;
      var instruction := s.instructionBuffer[s.instructionPointer];
      if instruction == InstLoopStart {
        assert t.closures[1..] == s.closures;
      } else if instruction == InstLoopEnd && t.closures != s.closures {
        assert t.closures == s.closures[1..];
      }
    }
  }

  /** Every iteration of `Execute` keeps the loop stack in step with the
      unmatched `[` before the instruction pointer. */
  lemma StepKeepsInv(s: State)
    requires Inv(s) && s.instructionPointer < |s.instructionBuffer|
    ensures Step(s).Ok? ==> Inv(Step(s).value)
  {
    StepKeepsSound(s);
    var program, ip := s.instructionBuffer, s.instructionPointer;
    if Step(s).Ok? {
      if program[ip] == InstLoopStart {
        StartLoopKeepsInv(s);
      } else if program[ip] == InstLoopEnd {
        EndLoopKeepsInv(s);
      } else {
        assert Open(program, ip + 1) == Open(program, ip);
      }
    }
  }

  /** `[` pushes exactly the position that becomes the innermost unmatched
      `[`. */
  lemma StartLoopKeepsInv(s: State)
    requires Inv(s) && s.instructionPointer < |s.instructionBuffer|
    requires s.instructionBuffer[s.instructionPointer] == InstLoopStart
    ensures Starts(Step(s).value.closures) == Open(s.instructionBuffer, s.instructionPointer + 1)
  {
    var t := Step(s).value;
    assert t.closures[1..] == s.closures;
    assert Starts(t.closures) == [s.instructionPointer] + Starts(s.closures);
  }

  /** `]` keeps the frames in step with the unmatched `[`, whether it jumps
      back or pops. */
  lemma EndLoopKeepsInv(s: State)
    requires Inv(s) && s.instructionPointer < |s.instructionBuffer|
    requires s.instructionBuffer[s.instructionPointer] == InstLoopEnd && Step(s).Ok?
    ensures Starts(Step(s).value.closures) == Open(s.instructionBuffer, Step(s).value.instructionPointer)
  {
    var program, ip := s.instructionBuffer, s.instructionPointer;
    if !Skipping(s) && Current(s) > 0 {
      TopSplit(program, ip);
    } else {
      assert Starts(Step(s).value.closures) == Starts(s.closures)[1..];
    }
  }

  /** While the top frame skips, no instruction touches the tape, the
      pointer, the input or the output, none fails, and a `[` pushes one
      more skipping frame. */
  lemma SkipFreezes(s: State)
    requires Sound(s) && s.instructionPointer < |s.instructionBuffer| && Skipping(s)
    ensures Step(s).Ok?
    ensures var t := Step(s).value;
      && t.data == s.data && t.dataPointer == s.dataPointer
      && t.input == s.input && t.output == s.output
      && t.instructionPointer == s.instructionPointer + 1
    ensures var t := Step(s).value; var instruction := s.instructionBuffer[s.instructionPointer];
      && (instruction == InstLoopStart ==>
            t.closures == [Closure(skip := true, root := false, start := s.instructionPointer)] + s.closures)
      && (instruction == InstLoopEnd ==> t.closures == s.closures[1..])
      && (instruction != InstLoopStart && instruction != InstLoopEnd ==> t.closures == s.closures)
  {
    assert s.closures[|s.closures| - 1] == RootFrame;
  }

  /** Up to `k` iterations of `Execute` taken while the top frame skips,
      from a sound state: the state they reach and how many were taken.
      None fails, nested loops included, and none touches the tape, the
      pointer, the input or the output. They stop early only when the
      skipping ends or the program does. */
  function SkipRun(s: State, k: nat): (r: (State, nat))
    requires Sound(s)
    ensures Sound(r.0) && r.1 <= k
    ensures Reaches(s, r.0, r.1)
    ensures r.0.data == s.data && r.0.dataPointer == s.dataPointer
    ensures r.0.input == s.input && r.0.output == s.output
    ensures r.0.instructionBuffer == s.instructionBuffer
    ensures r.0.instructionPointer == s.instructionPointer + r.1
    ensures r.1 < k ==> r.0.instructionPointer >= |r.0.instructionBuffer| || !Skipping(r.0)
    decreases k
  {
    if k == 0 || s.instructionPointer >= |s.instructionBuffer| || !Skipping(s) then
      ReachesRefl(s);
      (s, 0)
    else
      SkipFreezes(s);
      StepKeepsSound(s);
      var r := SkipRun(Step(s).value, k - 1);
      StepThenReaches(s, r.0, r.1);
      (r.0, 1 + r.1)
  }

  /** An iteration that does not fail, followed by `n` more. */
  lemma StepThenReaches(s: State, u: State, n: nat)
    requires WellFormed(s) && s.instructionPointer < |s.instructionBuffer| && Step(s).Ok?
    requires WellFormed(u) && Reaches(Step(s).value, u, n)
    ensures Reaches(s, u, 1 + n)
  {
    StepReaches(s);
    ReachesTrans(s, Step(s).value, u, 1, n);
  }

  /** The three outcomes of `]`: fatal when nothing is open; a jump that
      resumes right after the frame's own `[` (so it is not pushed again)
      while the frame does not skip and the cell is non-zero; otherwise
      exactly the top frame is popped. */
  lemma EndLoopOutcomes(s: State)
    requires Inv(s) && s.instructionPointer < |s.instructionBuffer|
    requires s.instructionBuffer[s.instructionPointer] == InstLoopEnd
    ensures Step(s) == Fatal(UnbalancedLoop) <==> Open(s.instructionBuffer, s.instructionPointer) == []
    ensures Open(s.instructionBuffer, s.instructionPointer) != [] && !Skipping(s) && Current(s) > 0 ==>
      var start := s.closures[0].start;
      && Step(s) == Ok(s.(instructionPointer := start + 1))
      && start < s.instructionPointer && s.instructionBuffer[start] == InstLoopStart
      && Open(s.instructionBuffer, start + 1) == Open(s.instructionBuffer, s.instructionPointer)
    ensures Open(s.instructionBuffer, s.instructionPointer) != [] && (Skipping(s) || Current(s) == 0) ==>
      Step(s) == Ok(s.(closures := s.closures[1..], instructionPointer := s.instructionPointer + 1))
  {
    var program, ip := s.instructionBuffer, s.instructionPointer;
    if Open(program, ip) != [] {
      assert Open(program, ip)[0] == s.closures[0].start;
      TopSplit(program, ip);
    }
  }

  /** The invariants hold across any run of `Execute`. */
  lemma {:induction false} RunKeepsInv(s: State, fuel: nat)
    requires Inv(s)
    ensures Inv(Run(s, fuel).state)
    decreases fuel
  {
    if s.instructionPointer < |s.instructionBuffer| && fuel > 0 && Step(s).Ok? {
      StepKeepsInv(s);
      RunKeepsInv(Step(s).value, fuel - 1);
    }
  }

  /** A failed run stops at the instruction that fails, with the state
      just before it. */
  lemma {:induction false} RunFailsAtStep(s: State, fuel: nat)
    requires WellFormed(s) && Run(s, fuel).Failed?
    ensures Step(Run(s, fuel).state) == Fatal(Run(s, fuel).fault)
    decreases fuel
  {
    if Step(s).Ok? {
      RunFailsAtStep(Step(s).value, fuel - 1);
    }
  }

  /** Why a run fails: `<` at cell 0, `]` with no open `[` before it, or
      `,` with the input used up; never while skipping. The end-of-program
      check is not part of `Execute`. */
  lemma FailureCauses(s: State, fuel: nat)
    requires Inv(s) && Run(s, fuel).Failed?
    ensures var t, f := Run(s, fuel).state, Run(s, fuel).fault;
      var instruction := t.instructionBuffer[t.instructionPointer];
      && Inv(t) && !Skipping(t)
      && (f == OutOfBounds <==> instruction == InstMoveLeft)
      && (f == OutOfBounds ==> t.dataPointer == 0)
      && (f == UnbalancedLoop <==> instruction == InstLoopEnd)
      && (f == UnbalancedLoop ==> Open(t.instructionBuffer, t.instructionPointer) == [])
      && (f == InputExhausted <==> instruction == InstInput)
      && (f == InputExhausted ==> t.input == [])
      && f != UnterminatedLoop
  {
    RunKeepsInv(s, fuel);
    RunFailsAtStep(s, fuel);
    var t := Run(s, fuel).state;
    if Skipping(t) {
      SkipFreezes(t);
    }
  }

  /** When `Execute` runs off the end of the program, a frame above the
      root remains (and `ExpectEnd` fails) exactly when the program has an
      unmatched `[`. */
  lemma UnterminatedIff(s: State, fuel: nat)
    requires Inv(s) && Run(s, fuel).Halted?
    ensures var t := Run(s, fuel).state;
      && t.instructionPointer == |s.instructionBuffer|
      && (|t.closures| > 1 <==> Open(s.instructionBuffer, |s.instructionBuffer|) != [])
  {
    RunKeepsInv(s, fuel);
  }

  /** What a further `b` iterations do to an outcome: only a run stopped
      by the fuel bound goes on. */
  function Resume(o: Outcome, b: nat): Outcome
    requires WellFormed(o.state)
  {
    if o.OutOfFuel? then Run(o.state, b) else o
  }

  /** Fuel only bounds the run: more fuel never changes a run that has
      ended, and a run that ran out of fuel continues from where it
      stopped. */
  lemma {:induction false} RunAppend(s: State, a: nat, b: nat)
    requires WellFormed(s)
    ensures Run(s, a + b) == Resume(Run(s, a), b)
    decreases a
  {
    if s.instructionPointer < |s.instructionBuffer| && a > 0 {
      match Dispatch(s)
      case Ok(t) =>
        RunOk(s, a, t);
        RunOk(s, a + b, t);
        assert a + b - 1 == (a - 1) + b;
        RunAppend(t.(instructionPointer := t.instructionPointer + 1), a - 1, b);
      case Fatal(f) =>
        RunFatal(s, a, f);
        RunFatal(s, a + b, f);
    }
  }

  /** Net effect on the cell of a run of `+` and `-`: the number of `+`
      minus the number of `-`. */
  function Net(ops: seq<byte>): int
  {
    if ops == [] then 0
    else (if ops[0] == InstIncrement then 1 else if ops[0] == InstDecrement then -1 else 0) + Net(ops[1..])
  }

  /** The net count of two stretches adds up. */
  lemma {:induction false} NetAppend(a: seq<byte>, b: seq<byte>)
    ensures Net(a + b) == Net(a) + Net(b)
  {
    if a == [] {
      assert a + b == b;
    } else {
      assert (a + b)[0] == a[0] && (a + b)[1..] == a[1..] + b;
      NetAppend(a[1..], b);
    }
  }

  /** Applying two stretches one after the other is applying their
      concatenation. */
  lemma ShiftNet(c: byte, a: seq<byte>, b: seq<byte>)
    ensures Shift(Shift(c, Net(a)), Net(b)) == Shift(c, Net(a + b))
  {
    NetAppend(a, b);
    ShiftShift(c, Net(a), Net(b));
  }

  /** `k` iterations of `Execute` lead from `s` to `t` without ending the
      run, whatever fuel is left after them. */
  ghost predicate Reaches(s: State, t: State, k: nat)
    requires WellFormed(s) && WellFormed(t)
  {
    forall fuel: nat :: fuel >= k ==> Run(s, fuel) == Run(t, fuel - k)
  }

  lemma ReachesTrans(s: State, t: State, u: State, a: nat, b: nat)
    requires WellFormed(s) && WellFormed(t) && WellFormed(u)
    requires Reaches(s, t, a) && Reaches(t, u, b)
    ensures Reaches(s, u, a + b)
  {
    forall fuel: nat | fuel >= a + b
      ensures Run(s, fuel) == Run(u, fuel - (a + b))
    {
      assert Run(s, fuel) == Run(t, fuel - a);
      assert Run(t, fuel - a) == Run(u, fuel - a - b);
    }
  }

  /** Every state reaches itself in no iterations. */
  lemma ReachesRefl(s: State)
    requires WellFormed(s)
    ensures Reaches(s, s, 0)
  {
    forall fuel: nat
      ensures Run(s, fuel) == Run(s, fuel - 0)
    {
      assert fuel - 0 == fuel;
    }
  }

  /** An iteration that does not fail reaches its successor. */
  lemma StepReaches(s: State)
    requires WellFormed(s) && s.instructionPointer < |s.instructionBuffer| && Step(s).Ok?
    ensures Reaches(s, Step(s).value, 1)
  {
  }

  /** The state a stretch of `n` `+`/`-` instructions should leave: the
      current cell moved by their net count, the instruction pointer past
      them. */
  function AfterIncDec(s: State, n: nat): State
    requires s.dataPointer < |s.data| && s.instructionPointer + n <= |s.instructionBuffer|
  {
    var ops := s.instructionBuffer[s.instructionPointer..s.instructionPointer + n];
    s.(data := s.data[s.dataPointer := Shift(Current(s), Net(ops))],
       instructionPointer := s.instructionPointer + n)
  }

  /** One `+` or `-` outside a skipped loop: the cell moves one step around
      the ring and the instruction pointer advances. */
  lemma StepIncDec(s: State)
    requires WellFormed(s) && !Skipping(s) && s.instructionPointer < |s.instructionBuffer|
    requires s.instructionBuffer[s.instructionPointer] in {InstIncrement, InstDecrement}
    ensures Step(s) == Ok(AfterIncDec(s, 1))
    ensures Reaches(s, AfterIncDec(s, 1), 1)
  {
    var op := s.instructionBuffer[s.instructionPointer];
    assert s.instructionBuffer[s.instructionPointer..s.instructionPointer + 1] == [op];
    assert [op][1..] == [];
    assert Net([op]) == if op == InstIncrement then 1 else -1;
    StepReaches(s);
  }

  /** Splitting a stretch of `+`/`-` after its first instruction. */
  lemma AfterIncDecSplit(s: State, n: nat)
    requires s.dataPointer < |s.data| && 0 < n && s.instructionPointer + n <= |s.instructionBuffer|
    ensures AfterIncDec(AfterIncDec(s, 1), n - 1) == AfterIncDec(s, n)
  {
    var program, ip := s.instructionBuffer, s.instructionPointer;
    var first, rest := program[ip..ip + 1], program[ip + 1..ip + n];
    var t := AfterIncDec(s, 1);
    assert t.instructionBuffer[t.instructionPointer..t.instructionPointer + (n - 1)] == rest;
    assert program[ip..ip + n] == first + rest;
    ShiftNet(Current(s), first, rest);
  }

  /** The inductive step of `RunIncDec`: one instruction, then the rest of
      the stretch. */
  lemma IncDecThenRest(s: State, n: nat)
    requires WellFormed(s) && !Skipping(s) && 0 < n
    requires s.instructionPointer + n <= |s.instructionBuffer|
    requires s.instructionBuffer[s.instructionPointer] in {InstIncrement, InstDecrement}
    requires Reaches(AfterIncDec(s, 1), AfterIncDec(AfterIncDec(s, 1), n - 1), n - 1)
    ensures Reaches(s, AfterIncDec(s, n), n)
  {
    var next := AfterIncDec(s, 1);
    assert Reaches(s, next, 1) by {
      StepIncDec(s);
    }
    ReachesTrans(s, next, AfterIncDec(next, n - 1), 1, n - 1);
    AfterIncDecSplit(s, n);
  }

  /** `n` instructions of `+` and `-` lie ahead, outside a skipped loop. */
  ghost predicate IncDecAhead(s: State, n: nat)
  {
    WellFormed(s) && !Skipping(s) && s.instructionPointer + n <= |s.instructionBuffer|
    && forall k :: s.instructionPointer <= k < s.instructionPointer + n ==>
         s.instructionBuffer[k] in {InstIncrement, InstDecrement}
  }

  /** A stretch of `n` instructions made only of `+` and `-`, outside any
      skipped loop, leaves the current cell at its old value plus the
      number of `+` minus the number of `-`, modulo 256, and changes
      nothing else but the instruction pointer. */
  lemma {:induction false} RunIncDec(s: State, n: nat)
    requires IncDecAhead(s, n)
    ensures Reaches(s, AfterIncDec(s, n), n)
    decreases n
  {
    if n == 0 {
      IncDecNone(s);
    } else {
      IncDecNext(s, n);
      RunIncDec(AfterIncDec(s, 1), n - 1);
      IncDecThenRest(s, n);
    }
  }

  /** An empty stretch leaves the state as it is. */
  lemma IncDecNone(s: State)
    requires WellFormed(s) && s.instructionPointer <= |s.instructionBuffer|
    ensures Reaches(s, AfterIncDec(s, 0), 0)
  {
    assert s.data[s.dataPointer := Shift(Current(s), 0)] == s.data;
    assert AfterIncDec(s, 0) == s;
  }

  /** After the first `+` or `-` of a stretch, the rest of the stretch
      still lies ahead. */
  lemma IncDecNext(s: State, n: nat)
    requires IncDecAhead(s, n) && 0 < n
    ensures IncDecAhead(AfterIncDec(s, 1), n - 1)
    ensures s.instructionBuffer[s.instructionPointer] in {InstIncrement, InstDecrement}
  {
  }
}
