/** Whole programs run through the model, from a fresh processor. */
module Programs {
  import opened Tape
  import opened Instructions
  import opened Loops
  import opened Semantics
  import opened Properties

  /** A stretch made only of `+` moves the cell by its length. */
  lemma {:induction false} NetOfIncrements(ops: seq<byte>)
    requires forall i :: 0 <= i < |ops| ==> ops[i] == InstIncrement
    ensures Net(ops) == |ops|
  {
    if ops != [] {
      NetOfIncrements(ops[1..]);
    }
  }

  /** `++++++++[>++++++++<-]>.`: eight times eight, written out. */
  const Square: seq<byte> := [
    43, 43, 43, 43, 43, 43, 43, 43,   // 0..7    ++++++++
    91,                               // 8       [
    62,                               // 9       >
    43, 43, 43, 43, 43, 43, 43, 43,   // 10..17  ++++++++
    60,                               // 18      <
    45,                               // 19      -
    93,                               // 20      ]
    62,                               // 21      >
    46]                               // 22      .

  /** The frame the `[` at position 8 pushes while the counter is non-zero. */
  const Frame := Closure(skip := false, root := false, start := 8)

  /** A state of the `Square` run with no input left. */
  function At(data: seq<byte>, dataPointer: nat, closures: seq<Closure>, ip: nat, output: seq<byte>): State
  {
    State(data, dataPointer, closures, ip, Square, [], output)
  }

  /** The tape after one pass of the loop body: the second cell gains 8 and
      the counter loses 1. */
  function AfterPass(d: seq<byte>): (e: seq<byte>)
    requires |d| == PageSize
    ensures |e| == PageSize && e[0] == Dec(d[0])
  {
    d[1 := Shift(d[1], 8)][0 := Dec(d[0])]
  }

  /** The tape after `k` passes have emptied the counter. */
  function AfterLoop(d: seq<byte>, k: nat): seq<byte>
    requires |d| == PageSize
  {
    d[1 := Shift(d[1], 8 * k)][0 := 0]
  }

  /** The loop body `>++++++++<-`: the second cell gains 8 and the counter
      loses 1, arriving at the `]`. */
  lemma Body(d: seq<byte>)
    requires |d| == PageSize
    ensures Reaches(At(d, 0, [Frame, RootFrame], 9, []), At(AfterPass(d), 0, [Frame, RootFrame], 20, []), 11)
  {
    var s0 := At(d, 0, [Frame, RootFrame], 9, []);
    StepReaches(s0);
    var s1 := At(d, 1, [Frame, RootFrame], 10, []);
    assert Step(s0).value == s1;

    NetOfIncrements(Square[10..18]);
    RunIncDec(s1, 8);
    var c := d[1 := Shift(d[1], 8)];
    var s2 := At(c, 1, [Frame, RootFrame], 18, []);
    assert AfterIncDec(s1, 8) == s2;
    ReachesTrans(s0, s1, s2, 1, 8);

    StepReaches(s2);
    var s3 := At(c, 0, [Frame, RootFrame], 19, []);
    assert Step(s2).value == s3;
    ReachesTrans(s0, s2, s3, 9, 1);

    StepReaches(s3);
    var s4 := At(AfterPass(d), 0, [Frame, RootFrame], 20, []);
    assert Step(s3).value == s4;
    ReachesTrans(s0, s3, s4, 10, 1);
  }

  /** `]` with a non-zero counter jumps back to just after `[`. */
  lemma LoopBack(e: seq<byte>)
    requires |e| == PageSize && e[0] > 0
    ensures Reaches(At(e, 0, [Frame, RootFrame], 20, []), At(e, 0, [Frame, RootFrame], 9, []), 1)
  {
    var s := At(e, 0, [Frame, RootFrame], 20, []);
    StepReaches(s);
    assert Step(s).value == At(e, 0, [Frame, RootFrame], 9, []);
  }

  /** `]` with the counter at 0 pops the frame and falls through. */
  lemma LoopExit(e: seq<byte>)
    requires |e| == PageSize && e[0] == 0
    ensures Reaches(At(e, 0, [Frame, RootFrame], 20, []), At(e, 0, [RootFrame], 21, []), 1)
  {
    var s := At(e, 0, [Frame, RootFrame], 20, []);
    StepReaches(s);
    assert Step(s).value == At(e, 0, [RootFrame], 21, []);
  }

  /** The loop is about to run `k` more passes: the counter holds `k`. */
  ghost predicate Counting(d: seq<byte>, k: nat)
  {
    |d| == PageSize && 0 < k && d[0] as int == k
  }

  /** `k` passes of the loop: the counter goes from `k` to 0 and the
      second cell gains `8 * k`. */
  lemma {:induction false} Passes(d: seq<byte>, k: nat)
    requires Counting(d, k)
    ensures Reaches(At(d, 0, [Frame, RootFrame], 9, []), At(AfterLoop(d, k), 0, [RootFrame], 21, []), 12 * k)
    decreases k
  {
    if k == 1 {
      LastPass(d);
    } else {
      FirstPass(d, k);
      Passes(AfterPass(d), k - 1);
      PassesAdd(d, k);
      PassThenRest(d, k);
    }
  }

  /** The last pass: the counter reaches 0 and the loop is left. */
  lemma LastPass(d: seq<byte>)
    requires Counting(d, 1)
    ensures Reaches(At(d, 0, [Frame, RootFrame], 9, []), At(AfterLoop(d, 1), 0, [RootFrame], 21, []), 12)
  {
    var e := AfterPass(d);
    Body(d);
    LoopExit(e);
    ReachesTrans(At(d, 0, [Frame, RootFrame], 9, []), At(e, 0, [Frame, RootFrame], 20, []),
                 At(e, 0, [RootFrame], 21, []), 11, 1);
    assert e == AfterLoop(d, 1);
  }

  /** A pass that is not the last leaves a counter one lower. */
  lemma FirstPass(d: seq<byte>, k: nat)
    requires Counting(d, k) && 1 < k
    ensures Counting(AfterPass(d), k - 1)
  {
  }

  /** One pass and then `k - 1` more leave the tape that `k` passes leave. */
  lemma PassesAdd(d: seq<byte>, k: nat)
    requires |d| == PageSize && 1 < k
    ensures AfterLoop(AfterPass(d), k - 1) == AfterLoop(d, k)
  {
    ShiftShift(d[1], 8, 8 * (k - 1));
  }

  /** The inductive step of `Passes`: one pass, then the `k - 1` others. */
  lemma PassThenRest(d: seq<byte>, k: nat)
    requires Counting(d, k) && 1 < k
    requires Reaches(At(AfterPass(d), 0, [Frame, RootFrame], 9, []),
                     At(AfterLoop(d, k), 0, [RootFrame], 21, []), 12 * (k - 1))
    ensures Reaches(At(d, 0, [Frame, RootFrame], 9, []), At(AfterLoop(d, k), 0, [RootFrame], 21, []), 12 * k)
  {
    var s := At(d, 0, [Frame, RootFrame], 9, []);
    var next := At(AfterPass(d), 0, [Frame, RootFrame], 9, []);
    var done := At(AfterLoop(d, k), 0, [RootFrame], 21, []);
    var jump := At(AfterPass(d), 0, [Frame, RootFrame], 20, []);
    Body(d);
    LoopBack(AfterPass(d));
    ReachesTrans(s, jump, next, 11, 1);
    ReachesTrans(s, next, done, 12, 12 * (k - 1));
  }

  /** `++++++++` from a fresh processor sets the counter to 8. */
  lemma Counter()
    ensures Reaches(Load(Initial([]), Square), At(Zeros(PageSize)[0 := 8], 0, [RootFrame], 8, []), 8)
  {
    var s0 := Load(Initial([]), Square);
    assert forall k :: 0 <= k < 8 ==> Square[k] == InstIncrement;
    RunIncDec(s0, 8);
    assert Net(Square[0..8]) == 8 by {
      NetOfIncrements(Square[0..8]);
    }
    assert Shift(Current(s0), 8) == 8;
    assert AfterIncDec(s0, 8) == At(Zeros(PageSize)[0 := 8], 0, [RootFrame], 8, []);
  }

  /** `++++++++[` from a fresh processor: the counter is set to 8 and the
      loop is entered. */
  lemma Prologue()
    ensures Reaches(Load(Initial([]), Square), At(Zeros(PageSize)[0 := 8], 0, [Frame, RootFrame], 9, []), 9)
  {
    var d := Zeros(PageSize)[0 := 8];
    var s1 := At(d, 0, [RootFrame], 8, []);
    Counter();
    assert Square[8] == InstLoopStart && Current(s1) == 8;
    StepReaches(s1);
    var s2 := At(d, 0, [Frame, RootFrame], 9, []);
    assert Step(s1).value == s2;
    ReachesTrans(Load(Initial([]), Square), s1, s2, 8, 1);
  }

  /** `>.` after the loop: the second cell is written out and the program
      ends. */
  lemma Epilogue(e: seq<byte>)
    requires |e| == PageSize
    ensures Reaches(At(e, 0, [RootFrame], 21, []), At(e, 1, [RootFrame], 23, [e[1]]), 2)
  {
    var s3 := At(e, 0, [RootFrame], 21, []);
    StepReaches(s3);
    var s4 := At(e, 1, [RootFrame], 22, []);
    assert Step(s3).value == s4;

    StepReaches(s4);
    var s5 := At(e, 1, [RootFrame], 23, [e[1]]);
    assert Step(s4).value == s5;
    ReachesTrans(s3, s4, s5, 1, 1);
  }

  /** `++++++++[>++++++++<-]>.` writes the single byte 64 (`@`) and runs
      off the end of the program with no loop open. */
  lemma SquareWrites64()
    ensures Run(Load(Initial([]), Square), 107) ==
      Halted(At(Zeros(PageSize)[1 := 64][0 := 0], 1, [RootFrame], 23, [64]))
  {
    var s0 := Load(Initial([]), Square);
    var d := Zeros(PageSize)[0 := 8];
    var s2 := At(d, 0, [Frame, RootFrame], 9, []);
    Prologue();
    Passes(d, 8);
    var e := AfterLoop(d, 8);
    assert e == Zeros(PageSize)[1 := 64][0 := 0];
    var s3 := At(e, 0, [RootFrame], 21, []);
    ReachesTrans(s0, s2, s3, 9, 96);
    Epilogue(e);
    var s5 := At(e, 1, [RootFrame], 23, [64]);
    ReachesTrans(s0, s3, s5, 105, 2);
    assert Run(s0, 107) == Run(s5, 0);
  }

  /** `,.` copies one byte of input to the output. */
  lemma EchoCopies(b: byte)
    ensures var o := Run(Load(Initial([b]), [InstInput, InstOutput]), 2);
      o.Halted? && o.state.output == [b] && o.state.input == []
  {
  }

  /** `,` with nothing left to read is fatal before anything changes. */
  lemma ReadPastEnd()
    ensures Run(Load(Initial([]), [InstInput]), 1) == Failed(InputExhausted, Load(Initial([]), [InstInput]))
  {
  }

  /** `<` on a fresh processor is fatal: the pointer starts at cell 0. */
  lemma LeftOfStart()
    ensures Run(Load(Initial([]), [InstMoveLeft]), 1) == Failed(OutOfBounds, Load(Initial([]), [InstMoveLeft]))
  {
  }

  /** A `]` with no `[` before it is fatal. */
  lemma StrayLoopEnd()
    ensures Run(Load(Initial([]), [InstLoopEnd]), 1) == Failed(UnbalancedLoop, Load(Initial([]), [InstLoopEnd]))
  {
  }

  /** `[` alone skips to the end of the program but leaves its frame open,
      so the end-of-program check fails. */
  lemma UnclosedLoop()
    ensures var o := Run(Load(Initial([]), [InstLoopStart]), 1);
      o.Halted? && |o.state.closures| == 2 && o.state.closures[0].skip
  {
  }

  /** A state that one iteration maps to itself never halts. */
  lemma {:induction false} FixedPointSpins(s: State, fuel: nat)
    requires WellFormed(s) && s.instructionPointer < |s.instructionBuffer| && Step(s) == Ok(s)
    ensures Run(s, fuel) == OutOfFuel(s)
    decreases fuel
  {
    if fuel > 0 {
      FixedPointSpins(s, fuel - 1);
    }
  }

  /** `+[]` never ends: after `+[` the `]` jumps back to itself forever. */
  lemma SpinForever(fuel: nat)
    ensures Run(Load(Initial([]), [InstIncrement, InstLoopStart, InstLoopEnd]), fuel).OutOfFuel?
  {
    var program := [InstIncrement, InstLoopStart, InstLoopEnd];
    var s0 := Load(Initial([]), program);
    if fuel >= 2 {
      var s1 := s0.(data := Zeros(PageSize)[0 := 1], instructionPointer := 1);
      var s2 := s1.(closures := [Closure(skip := false, root := false, start := 1), RootFrame], instructionPointer := 2);
      StepReaches(s0);
      assert Step(s0).value == s1;
      StepReaches(s1);
      assert Step(s1).value == s2;
      ReachesTrans(s0, s1, s2, 1, 1);
      FixedPointSpins(s2, fuel - 2);
      assert Run(s0, fuel) == Run(s2, fuel - 2);
    }
  }
}
